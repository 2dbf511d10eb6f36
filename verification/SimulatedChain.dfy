/**
 * InMemoryChainTransport: the simulated chain the gateway is driven against.
 *
 * Payloads are envelopes (a call plus a signature marker). Their JSON text and its sha256 are taken
 * as injective, so a payload is its envelope and a transaction hash is the payload it digests.
 */
module SimulatedChain {
  import opened Common

  datatype Call =
    | RegisterEntity(operator: Address, entityId: string, metadataHash: string, hashSchema: nat)
    | IssueCredential(operator: Address, credentialId: string, issuerId: string, subjectId: string, eventId: string,
                      credentialType: nat, metadataHash: string, hashSchema: nat)
    | RevokeCredential(operator: Address, credentialId: string, reasonHash: Option<string>)

  /** A text handed over as XDR: an envelope, or something that does not decode to one. */
  datatype Payload = Envelope(call: Call, signature: Option<string>) | Undecodable(text: string)

  datatype ChainError = InvalidInput | AlreadyExists | UnknownCredentialType | NotFound

  datatype TxHash = Sha256(payload: Payload)

  datatype Status = Pending | Success | Failed
  datatype Receipt = Receipt(status: Status, ledger: nat)

  datatype EntityHead = EntityHead(entityId: string, latestVersion: nat, active: bool, metadataHash: string,
                                   hashSchema: nat, ledger: nat)
  datatype EntityContent = EntityContent(metadataHash: string, hashSchema: nat)

  datatype Credential = Credential(
    credentialId: string, tokenId: nat, issuerId: string, subjectId: string, eventId: string, credentialType: nat,
    metadataHash: string, hashSchema: nat, revoked: bool, revokedReasonHash: Option<string>, revokedLedger: Option<nat>,
    issuedLedger: nat, issuedBy: Address)

  datatype Chain = Chain(
    ledger: nat, entities: map<string, EntityHead>, entityVersions: map<string, map<nat, EntityContent>>,
    credentials: map<string, Credential>, tokenCounter: nat, businessKeys: map<string, string>,
    pending: map<TxHash, Receipt>)

  const GENESIS := 1000

  function Genesis(): Chain {
    Chain(GENESIS, map[], map[], map[], 0, map[], map[])
  }

  function BusinessKey(issuerId: string, subjectId: string, eventId: string, credentialType: nat): string {
    issuerId + "|" + subjectId + "|" + eventId + "|" + Decimal(credentialType)
  }

  function CallKey(c: Call): string
    requires c.IssueCredential?
  {
    BusinessKey(c.issuerId, c.subjectId, c.eventId, c.credentialType)
  }

  /** Ids reach the chain as bytes and are kept as their hex text. */
  predicate HexIds(c: Call) {
    match c
    case RegisterEntity(_, id, _, _) => IsHex(id)
    case IssueCredential(_, id, i, s, e, _, _, _) => IsHex(id) && IsHex(i) && IsHex(s) && IsHex(e)
    case RevokeCredential(_, id, _) => IsHex(id)
  }

  function Validate(s: Chain, c: Call): Option<ChainError> {
    match c
    case RegisterEntity(_, id, meta, schema) =>
      if schema != 1 then Some(InvalidInput)
      else if id in s.entities && (s.entities[id].metadataHash != meta || s.entities[id].hashSchema != 1)
        then Some(AlreadyExists)
      else None
    case IssueCredential(_, id, _, _, _, ctype, _, schema) =>
      if schema != 1 then Some(InvalidInput)
      else if ctype < 1 || 6 < ctype then Some(UnknownCredentialType)
      else if id in s.credentials then None
      else if CallKey(c) in s.businessKeys then Some(AlreadyExists)
      else None
    case RevokeCredential(_, id, reason) =>
      if id !in s.credentials then Some(NotFound)
      else if s.credentials[id].revoked && s.credentials[id].revokedReasonHash != reason then Some(AlreadyExists)
      else None
  }

  function Apply(s: Chain, c: Call): Chain {
    match c
    case RegisterEntity(_, id, meta, schema) =>
      if id in s.entities then s
      else s.(entities := s.entities[id := EntityHead(id, 1, true, meta, schema, s.ledger)],
              entityVersions := s.entityVersions[id := map[1 := EntityContent(meta, schema)]])
    case IssueCredential(operator, id, issuer, subject, event, ctype, meta, schema) =>
      if id in s.credentials then s
      else s.(businessKeys := s.businessKeys[CallKey(c) := id],
              tokenCounter := s.tokenCounter + 1,
              credentials :=
                s.credentials[id := Credential(id, s.tokenCounter + 1, issuer, subject, event, ctype, meta, schema,
                                                            false, None, None, s.ledger, operator)])
    case RevokeCredential(_, id, reason) =>
      if id !in s.credentials || s.credentials[id].revoked then s
      else s.(credentials := s.credentials[id := s.credentials[id].(revoked := true, revokedReasonHash := reason,
                                                                    revokedLedger := Some(s.ledger))])
  }

  predicate Signed(p: Payload) {
    p.Envelope? && p.signature.Some?
  }

  /** `submit`: an unsigned or unreadable payload is refused before anything is written. */
  function Submit(s: Chain, p: Payload, staysPending: bool): (r: (Chain, Option<TxHash>))
  {
    if !Signed(p) then (s, None) else
      var next := s.(ledger := s.ledger + 1);
      var hash := Sha256(p);
      if Validate(s, p.call).Some? then
        (next.(pending := next.pending[hash := Receipt(Failed, next.ledger)]), Some(hash))
      else
        (Apply(next, p.call).(pending :=
                              s.pending[hash := Receipt(if staysPending then Pending else Success, next.ledger)]),
                                Some(hash))
  }

  /** A submission is answered with its payload's hash, whose receipt tells what became of it, in the new ledger. */
  lemma SubmissionLeavesItsReceipt(s: Chain, p: Payload, staysPending: bool)
    requires Signed(p)
    ensures var (s', hash) := Submit(s, p, staysPending);
            && hash == Some(Sha256(p)) && s'.ledger == s.ledger + 1
            && s'.pending == s.pending[Sha256(p) := Receipt(if Validate(s, p.call).Some? then Failed
                                                            else if staysPending then Pending else Success,
                                                            s'.ledger)]
    ensures Validate(s, p.call).Some? ==> Domain(Submit(s, p, staysPending).0) == Domain(s)
  {}

  lemma UnsignedLeavesNoTrace(s: Chain, p: Payload, staysPending: bool)
    requires p.Undecodable? || p.signature.None?
    ensures Submit(s, p, staysPending) == (s, None)
  {}

  datatype PollResult = Absent | StillPending | TxFailed | TxSuccess(ledger: Option<nat>)

  function Poll(s: Chain, hash: TxHash, nullLedger: bool): PollResult {
    if hash !in s.pending then Absent
    else match s.pending[hash].status
      case Pending => StillPending
      case Failed => TxFailed
      case Success => TxSuccess(if nullLedger then None else Some(s.pending[hash].ledger))
  }

  /** `readback` of `verify_entity`. */
  function VerifyEntity(s: Chain, id: string, version: nat, metadataHash: string, hashSchema: nat): bool {
    && id in s.entities && s.entities[id].active
    && 1 <= version <= s.entities[id].latestVersion
    && id in s.entityVersions && version in s.entityVersions[id]
    && s.entityVersions[id][version] == EntityContent(metadataHash, hashSchema)
  }

  // ----- what a submission can and cannot change -----

  /** Everything but the ledger number and the receipts. */
  function Domain(s: Chain): Chain {
    s.(ledger := 0, pending := map[])
  }

  /** The call's effect is on the chain, so carrying it out again would change nothing. */
  predicate Applied(s: Chain, c: Call) {
    match c
    case RegisterEntity(_, id, meta, schema) =>
      schema == 1 && id in s.entities && s.entities[id].metadataHash == meta && s.entities[id].hashSchema == 1
    case IssueCredential(_, id, _, _, _, ctype, _, schema) =>
      schema == 1 && 1 <= ctype <= 6 && id in s.credentials
    case RevokeCredential(_, id, reason) =>
      id in s.credentials && s.credentials[id].revoked && s.credentials[id].revokedReasonHash == reason
  }

  predicate Accepted(s: Chain, p: Payload) {
    Signed(p) && Validate(s, p.call).None?
  }

  /** What every later state keeps of a chain. */
  ghost predicate Extends(s: Chain, s': Chain) {
    && s.ledger <= s'.ledger && s.tokenCounter <= s'.tokenCounter
    && (forall key :: key in s.businessKeys ==> key in s'.businessKeys && s'.businessKeys[key] == s.businessKeys[key])
    && (forall id :: id in s.entities ==> id in s'.entities && s'.entities[id] == s.entities[id])
    && (forall id :: id in s.entityVersions ==>
        id in s'.entityVersions && s'.entityVersions[id] == s.entityVersions[id])
    && (forall id :: id in s.credentials ==>
        id in s'.credentials && KeepsCredential(s.credentials[id], s'.credentials[id]))
  }

  /** Issue fields never change, and a revocation is final. */
  ghost predicate KeepsCredential(a: Credential, b: Credential) {
    && b.(revoked := a.revoked, revokedReasonHash := a.revokedReasonHash, revokedLedger := a.revokedLedger) == a
    && (a.revoked ==> b == a)
  }

  /** Entity heads and version tables cover the same entities; only registered content is filed. */
  ghost predicate EntitiesOk(s: Chain) {
    && (forall id :: id in s.entityVersions <==> id in s.entities)
    && (forall id :: id in s.entities ==> EntityOk(s.entities[id], s.entityVersions[id]))
  }

  ghost predicate EntityOk(head: EntityHead, versions: map<nat, EntityContent>) {
    && head.active && head.latestVersion == 1
    && versions == map[1 := EntityContent(head.metadataHash, head.hashSchema)]
  }

  lemma SubmitExtends(s: Chain, p: Payload, staysPending: bool)
    requires EntitiesOk(s)
    ensures Extends(s, Submit(s, p, staysPending).0) && EntitiesOk(Submit(s, p, staysPending).0)
  {
    if Signed(p) && Validate(s, p.call).None? {
      ApplyExtends(s.(ledger := s.ledger + 1), p.call);
    }
  }

  lemma ApplyExtends(s: Chain, c: Call)
    requires EntitiesOk(s) && Validate(s, c).None?
    ensures Extends(s, Apply(s, c)) && EntitiesOk(Apply(s, c))
  {
    if c.RegisterEntity? {
      ApplyRegisterExtends(s, c);
    } else {
      var s' := Apply(s, c);
      assert s'.entities == s.entities && s'.entityVersions == s.entityVersions && s'.ledger == s.ledger;
      forall id | id in s.credentials ensures id in s'.credentials
        && KeepsCredential(s.credentials[id], s'.credentials[id]) {
        assert id != c.credentialId ==> id in s'.credentials && s'.credentials[id] == s.credentials[id];
      }
    }
  }

  lemma ApplyRegisterExtends(s: Chain, c: Call)
    requires EntitiesOk(s) && c.RegisterEntity?
    ensures Extends(s, Apply(s, c)) && EntitiesOk(Apply(s, c))
  {
    var s' := Apply(s, c);
    if c.entityId !in s.entities {
      forall id | id in s'.entities ensures id in s'.entityVersions
        && EntityOk(s'.entities[id], s'.entityVersions[id]) {
        assert id != c.entityId ==> EntityOk(s.entities[id], s.entityVersions[id]);
      }
    }
  }

  lemma ExtendsItself(s: Chain)
    ensures Extends(s, s)
  {}

  lemma ExtendsIsTransitive(a: Chain, b: Chain, c: Chain)
    requires Extends(a, b) && Extends(b, c)
    ensures Extends(a, c)
  {}

  lemma AcceptedBecomesApplied(s: Chain, p: Payload, staysPending: bool)
    requires Accepted(s, p)
    ensures Applied(Submit(s, p, staysPending).0, p.call)
  {}

  lemma AppliedStaysApplied(s: Chain, s': Chain, c: Call)
    requires Applied(s, c) && Extends(s, s')
    ensures Applied(s', c)
  {}

  lemma AppliedIsInert(s: Chain, p: Payload, staysPending: bool)
    requires Signed(p) && Applied(s, p.call)
    ensures Accepted(s, p) && Domain(Submit(s, p, staysPending).0) == Domain(s)
  {}

  /** A series of submissions by anyone. */
  function SubmitAll(s: Chain, ps: seq<(Payload, bool)>): Chain
    decreases |ps|
  {
    if ps == [] then s else SubmitAll(Submit(s, ps[0].0, ps[0].1).0, ps[1..])
  }

  lemma {:induction false} SubmitAllExtends(s: Chain, ps: seq<(Payload, bool)>)
    requires EntitiesOk(s)
    ensures Extends(s, SubmitAll(s, ps)) && EntitiesOk(SubmitAll(s, ps))
    decreases |ps|
  {
    if ps != [] {
      SubmitExtends(s, ps[0].0, ps[0].1);
      SubmitAllExtends(Submit(s, ps[0].0, ps[0].1).0, ps[1..]);
      ExtendsIsTransitive(s, Submit(s, ps[0].0, ps[0].1).0, SubmitAll(s, ps));
    }
  }

  /**
   * Resending is safe: a payload that was once accepted is accepted again at any later time, and
   * leaves entities, credentials, tokens and business keys exactly as they are.
   */
  lemma ResubmissionIsInert(s: Chain, p: Payload, staysPending: bool, between: seq<(Payload, bool)>, again: bool)
    requires EntitiesOk(s) && Accepted(s, p)
    ensures var later := SubmitAll(Submit(s, p, staysPending).0, between);
            Accepted(later, p) && Domain(Submit(later, p, again).0) == Domain(later)
  {
    var s1 := Submit(s, p, staysPending).0;
    SubmitExtends(s, p, staysPending);
    SubmitAllExtends(s1, between);
    AcceptedBecomesApplied(s, p, staysPending);
    AppliedStaysApplied(s1, SubmitAll(s1, between), p.call);
    AppliedIsInert(SubmitAll(s1, between), p, again);
  }

  // ----- the transport object -----

  class Transport {
    var ledger: nat
    var entities: map<string, EntityHead>
    var entityVersions: map<string, map<nat, EntityContent>>
    var credentials: map<string, Credential>
    var tokenCounter: nat
    var businessKeys: map<string, string>
    var pending: map<TxHash, Receipt>

    function State(): Chain
      reads this
    {
      Chain(ledger, entities, entityVersions, credentials, tokenCounter, businessKeys, pending)
    }

    constructor ()
      ensures State() == Genesis() && EntitiesOk(State())
    {
      ledger, tokenCounter := 1000, 0;
      entities, entityVersions, credentials, businessKeys, pending := map[], map[], map[], map[], map[];
    }

    method ValidateCall(c: Call) returns (error: Option<ChainError>)
      ensures error == Validate(State(), c)
    {
      match c
      case RegisterEntity(_, id, meta, schema) =>
        if schema != 1 { return Some(InvalidInput); }
        if id in entities {
          var head := entities[id];
          if head.metadataHash != meta || head.hashSchema != 1 { return Some(AlreadyExists); }
        }
        return None;
      case IssueCredential(_, id, issuer, subject, event, ctype, _, schema) =>
        if schema != 1 { return Some(InvalidInput); }
        if ctype < 1 || 6 < ctype { return Some(UnknownCredentialType); }
        if id in credentials { return None; }
        if BusinessKey(issuer, subject, event, ctype) in businessKeys { return Some(AlreadyExists); }
        return None;
      case RevokeCredential(_, id, reason) =>
        if id !in credentials { return Some(NotFound); }
        var record := credentials[id];
        if record.revoked && record.revokedReasonHash != reason { return Some(AlreadyExists); }
        return None;
    }

    method ApplyCall(c: Call)
      modifies this`entities, this`entityVersions, this`credentials, this`tokenCounter, this`businessKeys
      ensures State() == Apply(old(State()), c)
    {
      match c
      case RegisterEntity(_, id, meta, schema) =>
        if id !in entities {
          entities := entities[id := EntityHead(id, 1, true, meta, schema, ledger)];
          entityVersions := entityVersions[id := map[1 := EntityContent(meta, schema)]];
        }
      case IssueCredential(operator, id, issuer, subject, event, ctype, meta, schema) =>
        if id in credentials { return; }
        businessKeys := businessKeys[BusinessKey(issuer, subject, event, ctype) := id];
        tokenCounter := tokenCounter + 1;
        credentials := credentials[id := Credential(id, tokenCounter, issuer, subject, event, ctype, meta, schema,
                                                    false, None, None, ledger, operator)];
      case RevokeCredential(_, id, reason) =>
        if id in credentials && !credentials[id].revoked {
          credentials :=
            credentials[id := credentials[id].(revoked := true, revokedReasonHash := reason,
                                               revokedLedger := Some(ledger))];
        }
    }

    method SubmitPayload(p: Payload, staysPending: bool) returns (hash: Option<TxHash>)
      modifies this
      ensures (State(), hash) == Submit(old(State()), p, staysPending)
    {
      if !p.Envelope? || p.signature.None? {
        return None;
      }
      var error := ValidateCall(p.call);
      ledger := ledger + 1;
      if error.Some? {
        pending := pending[Sha256(p) := Receipt(Failed, ledger)];
      } else {
        ApplyCall(p.call);
        pending := pending[Sha256(p) := Receipt(if staysPending then Pending else Success, ledger)];
      }
      return Some(Sha256(p));
    }

    method PollTransaction(hash: TxHash, nullLedger: bool) returns (result: PollResult)
      ensures result == Poll(State(), hash, nullLedger)
    {
      if hash !in pending { return Absent; }
      var entry := pending[hash];
      if entry.status == Pending { return StillPending; }
      if entry.status == Failed { return TxFailed; }
      return TxSuccess(if nullLedger then None else Some(entry.ledger));
    }
  }
}
