/** Phases of a chain operation, the durable record, and what one gateway step computes from it. */
module Operations {
  import opened Common
  import opened Commands
  import S = SimulatedChain

  datatype Phase =
    AwaitingSignature | Signed | Submitted | Confirming | Confirmed | FailedRetryable | FailedTerminal | Unknown
      | Restoring

  function Transitions(from: Phase): set<Phase> {
    match from
    case AwaitingSignature => {Signed, FailedTerminal}
    case Signed => {Submitted, FailedRetryable}
    case Submitted => {Confirming, FailedRetryable, Unknown}
    case Confirming => {Confirmed, FailedRetryable, FailedTerminal, Unknown, Restoring}
    case Confirmed => {}
    case FailedRetryable => {AwaitingSignature, Submitted, Unknown, FailedTerminal}
    case FailedTerminal => {}
    case Unknown => {Submitted, Confirming, Confirmed, FailedRetryable, FailedTerminal, Restoring}
    case Restoring => {AwaitingSignature, Submitted, FailedRetryable, FailedTerminal}
  }

  /** `assertTransition` lets the move through. */
  predicate MayMove(from: Phase, to: Phase) {
    from == to || to in Transitions(from)
  }

  /** The table read by where its edges lead. */
  lemma WhatLeadsTo(from: Phase, to: Phase)
    ensures to in Transitions(from)
            <==> from in match to
                         case AwaitingSignature => {FailedRetryable, Restoring}
                         case Signed => {AwaitingSignature}
                         case Submitted => {Signed, FailedRetryable, Unknown, Restoring}
                         case Confirming => {Submitted, Unknown}
                         case Confirmed => {Confirming, Unknown}
                         case FailedRetryable => {Signed, Submitted, Confirming, Unknown, Restoring}
                         case FailedTerminal =>
                           {AwaitingSignature, Confirming, FailedRetryable, Unknown, Restoring}
                         case Unknown => {Submitted, Confirming, FailedRetryable}
                         case Restoring => {Confirming, Unknown}
  {}

  predicate IsTerminal(p: Phase) {
    p == Confirmed || p == FailedTerminal
  }

  /** The error codes a record can carry, and the errors a gateway call can reject with. */
  datatype ErrorCode =
    | SimulationFailed(error: S.ChainError) | ContractFailed | MissingLedger | ReadbackMismatch | MaxAttemptsExceeded
    | InvalidTransition | UnauthorizedPayload | SubmissionFailed | Thrown(text: string)

  datatype SignedPayload = SignedPayload(payload: S.Payload, signer: Address)

  /** The expected on-chain record; `None` is a field the comparison skips. */
  datatype Expected = Expected(
    credentialId: Option<string>, issuerId: Option<string>, subjectId: Option<string>, eventId: Option<string>,
    credentialType: Option<nat>, metadataHash: Option<string>, hashSchema: Option<nat>, issuedBy: Option<Address>,
    revoked: Option<bool>, revokedReasonHash: Option<Option<string>>)

  /** The stored operation. Its fingerprint digests the command without the client key, so it is that command. */
  datatype Operation = Operation(
    operationId: string, idempotencyKey: string, phase: Phase, txHash: Option<S.TxHash>, ledger: Option<nat>,
    errorCode: Option<ErrorCode>, actorAddress: Address, fingerprint: Command, subjectKey: string,
    prepared: Option<S.Payload>, signed: Option<SignedPayload>, expected: Option<Expected>,
    attemptCount: nat, nextRetryAt: Option<nat>)

  function ExpectedFor(c: Command): Expected {
    match c
    case RegisterEntity(_, _, _, meta, schema) =>
      Expected(None, None, None, None, None, Some(meta), Some(schema), None, None, None)
    case IssueCredential(_, actor, id, issuer, subject, event, ctype, meta, schema) =>
      Expected(Some(HashDocument(CREDENTIAL_SCHEMA, id)), Some(HashDocument(ENTITY_SCHEMA, issuer)),
               Some(HashDocument(ENTITY_SCHEMA, subject)), Some(HashDocument(ENTITY_SCHEMA, event)),
               Some(ctype), Some(meta), Some(schema), Some(actor), Some(false), None)
    case RevokeCredential(_, _, id, reason) =>
      Expected(Some(HashDocument(CREDENTIAL_SCHEMA, id)), None, None, None, None, None, None, None, Some(true),
               Some(reason))
  }

  predicate Skips<T(==)>(expected: Option<T>, actual: T) {
    expected.Some? ==> actual == expected.value
  }

  function CredentialRecordMatches(record: S.Credential, expected: Expected, ledger: Option<nat>, issue: bool): bool {
    && Skips(expected.credentialId, record.credentialId)
    && Skips(expected.issuerId, record.issuerId)
    && Skips(expected.subjectId, record.subjectId)
    && Skips(expected.eventId, record.eventId)
    && Skips(expected.credentialType, record.credentialType)
    && Skips(expected.metadataHash, record.metadataHash)
    && Skips(expected.hashSchema, record.hashSchema)
    && Skips(expected.issuedBy, record.issuedBy)
    && Skips(expected.revoked, record.revoked)
    && (if issue then !record.revoked && (ledger.Some? ==> record.issuedLedger == ledger.value)
        else record.revoked && (ledger.Some? ==> record.revokedLedger == ledger)
             && Skips(expected.revokedReasonHash, record.revokedReasonHash))
  }

  const ZERO_HASH := "0000000000000000000000000000000000000000000000000000000000000000"

  /** Contract readback: the last thing checked before an operation is called confirmed. */
  function ReadbackMatches(chain: S.Chain, op: Operation): bool {
    if op.fingerprint.RegisterEntity? then
      var meta := if op.expected.Some? && op.expected.value.metadataHash.Some?
        then op.expected.value.metadataHash.value else ZERO_HASH;
      var schema := if op.expected.Some? && op.expected.value.hashSchema.Some?
        then op.expected.value.hashSchema.value else 0;
      S.VerifyEntity(chain, op.subjectKey, 1, meta, schema)
    else
      && op.subjectKey in chain.credentials
      && op.expected.Some?
      && CredentialRecordMatches(chain.credentials[op.subjectKey], op.expected.value, op.ledger,
                                 op.fingerprint.IssueCredential?)
  }

  function Pow2(n: nat): (p: nat)
    ensures p >= 1
    ensures n >= 1 ==> p >= 2
  {
    if n == 0 then 1 else 2 * Pow2(n - 1)
  }

  /** Exponential backoff in milliseconds, from 2 s doubling up to a minute. */
  function BackoffMs(attempt: nat): (ms: nat)
    ensures 2_000 <= ms <= 60_000
  {
    var ms := 2_000 * Pow2(attempt);
    if ms < 60_000 then ms else 60_000
  }

  lemma {:induction false} Pow2Grows(n: nat)
    requires n >= 5
    ensures Pow2(n) >= 32
    decreases n
  {
    if n > 5 { Pow2Grows(n - 1); }
    else { assert Pow2(4) == 2 * Pow2(3) && Pow2(3) == 2 * Pow2(2) && Pow2(2) == 2 * Pow2(1); }
  }

  /** The waits: 2, 4, 8, 16 and 32 seconds, and a minute from the fifth attempt on. */
  lemma BackoffSteps(attempt: nat)
    ensures BackoffMs(attempt)
            == if attempt == 0 then 2_000 else if attempt == 1 then 4_000 else if attempt == 2 then 8_000
               else if attempt == 3 then 16_000 else if attempt == 4 then 32_000 else 60_000
  {
    if attempt >= 5 { Pow2Grows(attempt); }
    else { assert Pow2(4) == 2 * Pow2(3) && Pow2(3) == 2 * Pow2(2) && Pow2(2) == 2 * Pow2(1); }
  }

  /** The phases that end are those no transition leaves; every other that is past signing can be reconciled. */
  lemma LivePhases(p: Phase)
    ensures IsTerminal(p) <==> Transitions(p) == {}
    ensures Reconcilable(p) <==> !IsTerminal(p) && p != AwaitingSignature && p != Signed
  {}

  function ScheduleRetry(op: Operation, now: nat): Operation {
    op.(attemptCount := op.attemptCount + 1, nextRetryAt := Some(now + BackoffMs(op.attemptCount + 1)))
  }

  function MarkUnknown(op: Operation, now: nat): Operation {
    ScheduleRetry(op, now).(errorCode := None, phase := Unknown)
  }

  /** What polling the network makes of a confirming operation; a success with a ledger still has to be read back. */
  function AfterPoll(op: Operation, result: S.PollResult, now: nat): (r: Operation)
    ensures r.phase == Confirming ==> r == op.(ledger := r.ledger, phase := Confirming) && r.ledger.Some?
  {
    match result
    case Absent => MarkUnknown(op, now)
    case StillPending => MarkUnknown(op, now)
    case TxFailed => op.(phase := FailedTerminal, errorCode := Some(ContractFailed), nextRetryAt := None)
    case TxSuccess(None) => MarkUnknown(op, now).(errorCode := Some(MissingLedger))
    case TxSuccess(Some(ledger)) => op.(ledger := Some(ledger), phase := Confirming)
  }

  /**
   * How a poll settles a record, told by the receipt of its hash. Nothing known of it, or still pending, or a
   * success without a ledger: one more attempt later, the outcome unknown. Failed: failed for good. A success:
   * its ledger is recorded, and the readback decides.
   */
  ghost predicate Settles(op: Operation, receipt: Option<S.Receipt>, nullLedger: bool, chain: S.Chain, now: nat,
                          after: Operation)
  {
    if receipt.None? || receipt.value.status.Pending? || (receipt.value.status.Success? && nullLedger) then
      && after == op.(phase := Unknown, attemptCount := op.attemptCount + 1, nextRetryAt := after.nextRetryAt,
                      errorCode := after.errorCode)
      && after.nextRetryAt == Some(now + BackoffMs(op.attemptCount + 1)) && after.nextRetryAt.value > now
      && after.errorCode == (if receipt.Some? && receipt.value.status.Success? then Some(MissingLedger) else None)
    else if receipt.value.status.Failed? then
      after == op.(phase := FailedTerminal, errorCode := Some(ContractFailed), nextRetryAt := None)
    else
      var read := op.(ledger := Some(receipt.value.ledger));
      if ReadbackMatches(chain, read) then after == read.(phase := Confirmed, errorCode := None)
      else after == read.(phase := FailedTerminal, errorCode := Some(ReadbackMismatch))
  }

  function ReceiptOf(chain: S.Chain, hash: S.TxHash): Option<S.Receipt> {
    if hash in chain.pending then Some(chain.pending[hash]) else None
  }

  function AfterReadback(op: Operation, ok: bool): Operation {
    op.(phase := if ok then Confirmed else FailedTerminal, errorCode := if ok then None else Some(ReadbackMismatch))
  }

  /** The worker's error handler: what it saves over the record it finds, if anything. */
  function AfterWorkerError(record: Operation, code: ErrorCode, now: nat, maxAttempts: nat): Option<Operation> {
    if record.phase == Signed && record.nextRetryAt.Some? && record.nextRetryAt.value > now
      then Some(record.(errorCode := Some(code)))
    else if IsTerminal(record.phase) then None
    else
      var counted := record.(attemptCount := record.attemptCount + 1);
      if counted.attemptCount > maxAttempts then
        Some(counted.(errorCode := Some(MaxAttemptsExceeded), phase := FailedTerminal))
      else
        Some(counted.(errorCode := Some(code), phase := FailedRetryable,
                      nextRetryAt := Some(now + BackoffMs(counted.attemptCount))))
  }

  predicate Reconcilable(p: Phase) {
    p in {Submitted, Confirming, Unknown, Restoring, FailedRetryable}
  }

  /** `verifySignedMatches` of the simulated chain: the prepared call, now with a signature. */
  predicate SignedMatches(unsigned: S.Payload, signed: S.Payload) {
    && unsigned.Envelope? && unsigned.signature.None?
    && S.Signed(signed) && signed.call == unsigned.call
  }
}
