/** The inductive invariant of the protocol, and its preservation action by action. */
module ProtocolInvariant {
  import opened Common
  import opened Commands
  import opened Operations
  import opened Protocol
  import S = SimulatedChain

  // ----- one record -----

  /** What a record owes to the command it was created for. */
  ghost predicate IntentOk(op: Operation) {
    && op.idempotencyKey == CanonicalKey(op.fingerprint)
    && op.actorAddress == op.fingerprint.actorAddress
    && op.subjectKey == SubjectKey(op.fingerprint)
    && (op.prepared.Some? ==>
          && SpecFor(op.fingerprint).Ok?
          && op.prepared.value == S.Envelope(SpecFor(op.fingerprint).value, None)
          && op.expected == Some(ExpectedFor(op.fingerprint)))
    && (op.signed.Some? ==>
          && op.prepared.Some? && op.signed.value.signer == op.actorAddress
          && SignedMatches(op.prepared.value, op.signed.value.payload))
    && (op.txHash.Some? ==> op.signed.Some? && op.txHash.value == S.Sha256(op.signed.value.payload))
  }

  /** What each phase owes. */
  ghost predicate PhaseOk(op: Operation) {
    && (op.phase == AwaitingSignature ==> op.prepared.Some? && op.signed.None? && op.txHash.None?)
    && (op.phase == Signed ==> op.signed.Some? && op.txHash.None?)
    && (op.phase in {Submitted, Confirming, Unknown, Confirmed} ==> op.txHash.Some?)
    && (op.phase == Confirmed ==> op.ledger.Some?)
    && (op.phase == Restoring ==> op.txHash.None?)
  }

  /** The moves the gateway and the worker actually make (the worker's giving up aside). */
  function Moves(from: Phase): set<Phase> {
    match from
    case AwaitingSignature => {Signed}
    case Signed => {Submitted, FailedRetryable}
    case Submitted => {Confirming, FailedRetryable}
    case Confirming => {Confirmed, FailedRetryable, FailedTerminal, Unknown}
    case Unknown => {Confirming, FailedRetryable}
    case Restoring => {FailedRetryable}
    case _ => {}
  }

  /** The worker's MAX_ATTEMPTS write, the one that does not consult the transition table. */
  predicate GivenUp(maxAttempts: nat, op: Operation) {
    op.phase == FailedTerminal && op.errorCode == Some(MaxAttemptsExceeded) && op.attemptCount > maxAttempts
  }

  /** A write over `cur`: not over a terminal record, same intent, signature and hash kept, phase along a move. */
  ghost predicate Evolves(maxAttempts: nat, cur: Operation, op: Operation) {
    && !IsTerminal(cur.phase)
    && op.operationId == cur.operationId && op.idempotencyKey == cur.idempotencyKey
    && op.actorAddress == cur.actorAddress
    && op.fingerprint == cur.fingerprint && op.subjectKey == cur.subjectKey && op.prepared == cur.prepared
    && op.expected == cur.expected
    && (cur.signed.Some? ==> op.signed == cur.signed)
    && (cur.txHash.Some? ==> op.txHash == cur.txHash)
    && (op.phase == cur.phase || op.phase in Moves(cur.phase) || GivenUp(maxAttempts, op))
  }

  // ----- the chain and the wire -----

  /** The submission that closed in `ledger` carried `payload`. */
  predicate SentAt(wire: seq<Sent>, ledger: nat, payload: S.Payload) {
    S.GENESIS < ledger <= S.GENESIS + |wire| && wire[ledger - S.GENESIS - 1].payload == payload
  }

  ghost predicate WroteAt(wire: seq<Sent>, ledger: nat, id: string, issue: bool) {
    && S.GENESIS < ledger <= S.GENESIS + |wire|
    && var payload := wire[ledger - S.GENESIS - 1].payload;
    && S.Signed(payload)
    && if issue then payload.call.IssueCredential? && payload.call.credentialId == id
       else payload.call.RevokeCredential? && payload.call.credentialId == id
  }

  ghost predicate CredentialLogged(wire: seq<Sent>, id: string, r: S.Credential) {
    && r.credentialId == id
    && WroteAt(wire, r.issuedLedger, id, true)
    && r.revoked == r.revokedLedger.Some?
    && (r.revoked ==> WroteAt(wire, r.revokedLedger.value, id, false))
  }

  ghost predicate LogOk(chain: S.Chain, wire: seq<Sent>) {
    && chain.ledger == S.GENESIS + |wire|
    && S.EntitiesOk(chain)
    && (forall h :: h in chain.pending ==> SentAt(wire, chain.pending[h].ledger, h.payload))
    && (forall id :: id in chain.credentials ==> CredentialLogged(wire, id, chain.credentials[id]))
  }

  /** The contract fact an operation is about, field by field. */
  ghost predicate OnChain(chain: S.Chain, op: Operation) {
    match op.fingerprint
    case RegisterEntity(_, _, id, meta, schema) =>
      S.VerifyEntity(chain, HashDocument(ENTITY_SCHEMA, id), 1, meta, schema)
    case IssueCredential(_, actor, id, issuer, subject, event, ctype, meta, schema) =>
      var cid := HashDocument(CREDENTIAL_SCHEMA, id);
      && cid in chain.credentials
      && var r := chain.credentials[cid];
      && r.credentialId == cid && r.issuerId == HashDocument(ENTITY_SCHEMA, issuer)
      && r.subjectId == HashDocument(ENTITY_SCHEMA, subject) && r.eventId == HashDocument(ENTITY_SCHEMA, event)
      && r.credentialType == ctype && r.metadataHash == meta && r.hashSchema == schema && r.issuedBy == actor
      && Some(r.issuedLedger) == op.ledger
    case RevokeCredential(_, _, id, reason) =>
      var cid := HashDocument(CREDENTIAL_SCHEMA, id);
      && cid in chain.credentials
      && var r := chain.credentials[cid];
      && r.credentialId == cid && r.revoked && r.revokedReasonHash == reason && r.revokedLedger == op.ledger
  }

  /** Why an operation may be called confirmed: its own payload closed in its ledger, and the fact is there. */
  ghost predicate Evidence(chain: S.Chain, wire: seq<Sent>, op: Operation) {
    && op.ledger.Some? && op.signed.Some?
    && SentAt(wire, op.ledger.value, op.signed.value.payload)
    && OnChain(chain, op)
  }

  ghost predicate ConfirmedOk(s: Sys, op: Operation) {
    op.phase == Confirmed ==> Evidence(s.chain, s.wire, op)
  }

  // ----- the whole state -----

  ghost predicate StoredOk(s: Sys, id: string)
    requires id in s.ops
  {
    var op := s.ops[id];
    && op.operationId == id && IntentOk(op) && PhaseOk(op) && ConfirmedOk(s, op)
    && op.idempotencyKey in s.byKey && s.byKey[op.idempotencyKey] == id
  }

  ghost predicate KeyOk(s: Sys, key: string)
    requires key in s.byKey
  {
    s.byKey[key] in s.ops && s.ops[s.byKey[key]].idempotencyKey == key
  }

  /** Every submission sent for an operation is the payload that operation has stored. */
  ghost predicate SentOk(s: Sys, sent: Sent) {
    && S.Signed(sent.payload)
    && (sent.sender.Some? ==>
          && sent.sender.value in s.ops
          && s.ops[sent.sender.value].signed.Some? && s.ops[sent.sender.value].signed.value.payload == sent.payload)
  }

  ghost predicate WriteOk(s: Sys, id: string, op: Operation) {
    && id in s.ops && op.operationId == id
    && IntentOk(op) && PhaseOk(op) && ConfirmedOk(s, op) && Evolves(s.maxAttempts, s.ops[id], op)
  }

  ghost predicate FrameOk(s: Sys, id: string, f: Frame) {
    && id in s.ops
    && match f
       case SaveSigned(op) => WriteOk(s, id, op) && op.phase == Signed
       case Submitting(op, _) => op == s.ops[id] && op.phase == Signed
       case SaveSubmitted(op, _) => WriteOk(s, id, op) && op.phase == Submitted
       case SaveConfirming(op) => WriteOk(s, id, op) && op.phase == Confirming
       case Polling(op) => op == s.ops[id] && op.phase == Confirming
       case ReadingBack(op) =>
         && op == s.ops[id].(ledger := op.ledger) && op.phase == Confirming
         && op.ledger.Some? && op.signed.Some? && SentAt(s.wire, op.ledger.value, op.signed.value.payload)
       case SaveOutcome(op) => WriteOk(s, id, op)
       case SaveRetry(op) => WriteOk(s, id, op)
       case HandlerRead(_) => s.ops[id].phase != AwaitingSignature
       case HandlerSave(op) => WriteOk(s, id, op)
  }

  ghost predicate CallOk(s: Sys, id: string, c: InFlight) {
    FrameOk(s, id, c.frame) && (c.caller == Worker ==> s.ops[id].phase != AwaitingSignature)
  }

  ghost predicate ClaimedOk(s: Sys, copy: Copy) {
    copy.operationId in s.ops && s.ops[copy.operationId].phase != AwaitingSignature
  }

  ghost predicate PreparingOk(p: Preparing) {
    match p
    case Simulating(c) => true
    case Creating(op) =>
      && IntentOk(op) && PhaseOk(op) && op.signed.None? && op.txHash.None?
      && op.phase in {AwaitingSignature, Restoring, FailedTerminal}
  }

  /** Everything but the call in flight on `except` (if any). */
  ghost predicate RestOk(s: Sys, except: Option<string>) {
    && LogOk(s.chain, s.wire)
    && (forall sent :: sent in s.wire ==> SentOk(s, sent))
    && (forall id :: id in s.ops ==> StoredOk(s, id))
    && (forall key :: key in s.byKey ==> KeyOk(s, key))
    && (forall id :: id in s.claimed ==> ClaimedOk(s, id))
    && (forall t :: t in s.preparing ==> PreparingOk(s.preparing[t]))
    && (forall id :: id in s.calls && Some(id) != except ==> CallOk(s, id, s.calls[id]))
  }

  ghost predicate Inv(s: Sys) {
    RestOk(s, None)
  }

  lemma InitInv(maxAttempts: nat, feePayer: bool)
    ensures Inv(Init(maxAttempts, feePayer))
  {}

  // ----- putting a call back -----

  lemma Leave(s: Sys, id: string)
    requires RestOk(s, Some(id))
    ensures Inv(Returns(s, id))
  {
    var t := Returns(s, id);
    forall other | other in t.calls ensures CallOk(t, other, t.calls[other]) {
      assert CallOk(s, other, s.calls[other]);
    }
    SameStore(s, t);
  }

  lemma Wait(s: Sys, id: string, caller: Caller, frame: Frame)
    requires RestOk(s, Some(id)) && FrameOk(s, id, frame) && (caller == Worker ==> s.ops[id].phase != AwaitingSignature)
    ensures Inv(At(s, id, caller, frame))
  {
    var t := At(s, id, caller, frame);
    forall other | other in t.calls ensures CallOk(t, other, t.calls[other]) {
      if other != id {
        assert CallOk(s, other, s.calls[other]);
      }
    }
    SameStore(s, t);
  }

  lemma Throw(s: Sys, id: string, caller: Caller, code: ErrorCode)
    requires RestOk(s, Some(id)) && id in s.ops && (caller == Worker ==> s.ops[id].phase != AwaitingSignature)
    ensures Inv(Throws(s, id, caller, code))
  {
    if caller == Worker {
      Wait(s, id, caller, HandlerRead(code));
    } else {
      Leave(s, id);
    }
  }

  /** Two states with the same store, chain and wire: everything but their calls carries over. */
  lemma SameStore(s: Sys, t: Sys)
    requires RestOk(s, Some("")) || exists id :: RestOk(s, Some(id))
    requires t.ops == s.ops && t.byKey == s.byKey && t.chain == s.chain && t.wire == s.wire
    requires t.claimed == s.claimed && t.preparing == s.preparing
    requires forall id :: id in t.calls ==> CallOk(t, id, t.calls[id])
    ensures Inv(t)
  {
    forall id | id in t.ops ensures StoredOk(t, id) { assert StoredOk(s, id); }
    forall key | key in t.byKey ensures KeyOk(t, key) { assert KeyOk(s, key); }
    forall sent | sent in t.wire ensures SentOk(t, sent) { assert SentOk(s, sent); }
    forall id | id in t.claimed ensures ClaimedOk(t, id) { assert ClaimedOk(s, id); }
  }

  // ----- saving -----

  lemma SaveKeepsRecord(s: Sys, id: string, op: Operation, other: string)
    requires id in s.ops && StoredOk(s, id) && WriteOk(s, id, op) && other in s.ops && StoredOk(s, other)
    ensures StoredOk(Save(s, op), other)
  {}

  lemma SaveKeepsSent(s: Sys, id: string, op: Operation, sent: Sent)
    requires WriteOk(s, id, op) && SentOk(s, sent)
    ensures SentOk(Save(s, op), sent)
  {}

  lemma SaveKeeps(s: Sys, id: string, op: Operation)
    requires RestOk(s, Some(id)) && WriteOk(s, id, op)
    ensures RestOk(Save(s, op), Some(id)) && Save(s, op).ops == s.ops[id := op]
  {
    hide IntentOk, PhaseOk, ConfirmedOk;
    var t := Save(s, op);
    assert t == s.(ops := s.ops[id := op]);
    forall other | other in t.ops ensures StoredOk(t, other) { SaveKeepsRecord(s, id, op, other); }
    forall key | key in t.byKey ensures KeyOk(t, key) { assert KeyOk(s, key) && StoredOk(s, id); }
    forall sent | sent in t.wire ensures SentOk(t, sent) { SaveKeepsSent(s, id, op, sent); }
    forall other | other in t.claimed ensures ClaimedOk(t, other) { assert ClaimedOk(s, other); }
    forall other | other in t.calls && other != id ensures CallOk(t, other, t.calls[other]) {
      OtherCall(s, t, other, s.calls[other]);
    }
  }

  /** A call depends on the store only through its own record. */
  lemma OtherCall(s: Sys, t: Sys, id: string, c: InFlight)
    requires CallOk(s, id, c) && id in t.ops && t.ops[id] == s.ops[id] && t.chain == s.chain && t.wire == s.wire
    requires t.maxAttempts == s.maxAttempts
    ensures CallOk(t, id, c)
  {}

  // ----- the chain moves on -----

  /** What a later chain and wire keep of an earlier one. */
  ghost predicate Later(chain: S.Chain, wire: seq<Sent>, chain': S.Chain, wire': seq<Sent>) {
    S.Extends(chain, chain') && wire <= wire'
  }

  lemma SentAtStays(wire: seq<Sent>, wire': seq<Sent>, ledger: nat, payload: S.Payload)
    requires wire <= wire' && SentAt(wire, ledger, payload)
    ensures SentAt(wire', ledger, payload)
  {}

  lemma ConfirmedStays(s: Sys, t: Sys, op: Operation)
    requires Later(s.chain, s.wire, t.chain, t.wire) && ConfirmedOk(s, op)
    ensures ConfirmedOk(t, op)
  {}

  lemma WriteStays(s: Sys, t: Sys, id: string, op: Operation)
    requires Later(s.chain, s.wire, t.chain, t.wire) && t.ops == s.ops && t.maxAttempts == s.maxAttempts
             && WriteOk(s, id, op)
    ensures WriteOk(t, id, op)
  {}

  lemma CallStays(s: Sys, t: Sys, id: string, c: InFlight)
    requires Later(s.chain, s.wire, t.chain, t.wire) && t.ops == s.ops && t.maxAttempts == s.maxAttempts
             && CallOk(s, id, c)
    ensures CallOk(t, id, c)
  {
    match c.frame
    case SaveSigned(op) => WriteStays(s, t, id, op);
    case Submitting(op, _) =>
    case SaveSubmitted(op, _) => WriteStays(s, t, id, op);
    case SaveConfirming(op) => WriteStays(s, t, id, op);
    case Polling(op) =>
    case ReadingBack(op) => SentAtStays(s.wire, t.wire, op.ledger.value, op.signed.value.payload);
    case SaveOutcome(op) => WriteStays(s, t, id, op);
    case SaveRetry(op) => WriteStays(s, t, id, op);
    case HandlerRead(_) =>
    case HandlerSave(op) => WriteStays(s, t, id, op);
  }

  lemma CredentialStaysLogged(wire: seq<Sent>, sent: Sent, id: string, r: S.Credential)
    requires CredentialLogged(wire, id, r)
    ensures CredentialLogged(wire + [sent], id, r)
  {}

  /** One submission keeps the log: receipts and records point at the submissions that made them. */
  lemma SubmitKeepsLog(chain: S.Chain, wire: seq<Sent>, sent: Sent, staysPending: bool)
    requires LogOk(chain, wire) && S.Signed(sent.payload)
    ensures LogOk(S.Submit(chain, sent.payload, staysPending).0, wire + [sent])
    ensures Later(chain, wire, S.Submit(chain, sent.payload, staysPending).0, wire + [sent])
  {
    var chain', wire' := S.Submit(chain, sent.payload, staysPending).0, wire + [sent];
    S.SubmitExtends(chain, sent.payload, staysPending);
    assert chain'.ledger == S.GENESIS + |wire'| && wire'[chain'.ledger - S.GENESIS - 1] == sent;
    SubmitReceipts(chain, sent.payload, staysPending);
    forall h | h in chain'.pending ensures SentAt(wire', chain'.pending[h].ledger, h.payload) {
      if h != S.Sha256(sent.payload) {
        SentAtStays(wire, wire', chain.pending[h].ledger, h.payload);
      }
    }
    forall id | id in chain'.credentials ensures CredentialLogged(wire', id, chain'.credentials[id]) {
      SubmitWrites(chain, sent.payload, staysPending, id);
      if id in chain.credentials {
        CredentialStaysLogged(wire, sent, id, chain.credentials[id]);
      }
    }
  }

  lemma SubmitReceipts(chain: S.Chain, payload: S.Payload, staysPending: bool)
    requires S.Signed(payload)
    ensures var chain' := S.Submit(chain, payload, staysPending).0;
            && chain'.ledger == chain.ledger + 1
            && S.Sha256(payload) in chain'.pending && chain'.pending[S.Sha256(payload)].ledger == chain.ledger + 1
            && (forall h :: h in chain'.pending && h != S.Sha256(payload) ==>
                h in chain.pending && chain'.pending[h] == chain.pending[h])
  {}

  /** What one submission can do to one credential. */
  lemma SubmitWrites(chain: S.Chain, payload: S.Payload, staysPending: bool, id: string)
    requires S.Signed(payload) && id in S.Submit(chain, payload, staysPending).0.credentials
    ensures var r := S.Submit(chain, payload, staysPending).0.credentials[id];
            || (id in chain.credentials && r == chain.credentials[id])
            || (&& id !in chain.credentials && payload.call.IssueCredential? && payload.call.credentialId == id
                && r.credentialId == id && r.issuedLedger == chain.ledger + 1 && !r.revoked && r.revokedLedger.None?)
            || (&& id in chain.credentials && !chain.credentials[id].revoked
                && payload.call.RevokeCredential? && payload.call.credentialId == id
                && r == chain.credentials[id].(revoked := true, revokedReasonHash := payload.call.reasonHash,
                                               revokedLedger := Some(chain.ledger + 1)))
  {}

  lemma SubmissionKeeps(s: Sys, sent: Sent, staysPending: bool, except: Option<string>)
    requires RestOk(s, except) && SentOk(s, sent)
    ensures RestOk(s.(chain := S.Submit(s.chain, sent.payload, staysPending).0, wire := s.wire + [sent]), except)
  {
    var t := s.(chain := S.Submit(s.chain, sent.payload, staysPending).0, wire := s.wire + [sent]);
    SubmitKeepsLog(s.chain, s.wire, sent, staysPending);
    forall other | other in t.wire ensures SentOk(t, other) {
      assert SentOk(s, other);
    }
    forall id | id in t.ops ensures StoredOk(t, id) {
      assert StoredOk(s, id);
      ConfirmedStays(s, t, s.ops[id]);
    }
    forall key | key in t.byKey ensures KeyOk(t, key) { assert KeyOk(s, key); }
    forall id | id in t.claimed ensures ClaimedOk(t, id) { assert ClaimedOk(s, id); }
    forall id | id in t.calls && Some(id) != except ensures CallOk(t, id, t.calls[id]) {
      CallStays(s, t, id, s.calls[id]);
    }
  }
}
