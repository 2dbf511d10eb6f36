/**
 * What one gateway call leaves of its record, and one worker's claim after it, for every way the network
 * and the store can treat them.
 */
module GatewayOutcomes {
  import opened Common
  import opened Commands
  import opened Operations
  import opened Protocol
  import opened OperationStore
  import S = SimulatedChain

  /** What the network and the store do to one call; a store call that rejects writes nothing. */
  datatype Weather = Weather(
    readThrows: bool, signedSaveThrows: bool, submitThrows: bool, reached: bool, staysPending: bool,
    submittedSaveThrows: bool, retrySaveThrows: bool, confirmingSaveThrows: bool, pollThrows: bool, nullLedger: bool,
    readbackThrows: bool, outcomeSaveThrows: bool)

  const RPC_ERROR := Thrown("rpc")
  const STORE_ERROR := Thrown("store")

  /** What is stored in the end, and whether the call rejects. */
  datatype Outcome = Outcome(record: Operation, error: Option<ErrorCode>)

  function Report(o: Outcome): Result<Operation, ErrorCode> {
    if o.error.None? then Ok(o.record) else Err(o.error.value)
  }

  /** Poll, read back, save the outcome, over a stored confirming record. */
  function AfterConclude(op: Operation, w: Weather, b: Sys): Outcome
    requires op.txHash.Some?
  {
    if w.pollThrows then Outcome(op, Some(RPC_ERROR))
    else
      var next := AfterPoll(op, S.Poll(b.chain, op.txHash.value, w.nullLedger), b.now);
      if next.phase == Confirming && w.readbackThrows then Outcome(op, Some(RPC_ERROR))
      else if w.outcomeSaveThrows then Outcome(op, Some(STORE_ERROR))
      else if next.phase == Confirming then Outcome(AfterReadback(next, ReadbackMatches(b.chain, next)), None)
      else Outcome(next, None)
  }

  function AfterPollAndConfirm(record: Operation, w: Weather, b: Sys): Outcome {
    if record.txHash.None? || !MayMove(record.phase, Confirming) then Outcome(record, Some(InvalidTransition))
    else if w.confirmingSaveThrows then Outcome(record, Some(STORE_ERROR))
    else AfterConclude(record.(phase := Confirming), w, b)
  }

  /** The catch around a submission: `op` is rescheduled, unless its save rejects and `stored` stays. */
  function AfterRetry(stored: Operation, op: Operation, code: ErrorCode, w: Weather, now: nat): Outcome {
    if w.retrySaveThrows then Outcome(stored, Some(STORE_ERROR))
    else Outcome(ScheduleRetry(op, now).(errorCode := Some(code)), Some(SubmissionFailed))
  }

  /** The save of the hash that `op` carries, over `signed`; only a recovery catches it when it fails. */
  function AfterTrack(signed: Operation, op: Operation, recovery: bool, w: Weather, b: Sys): Outcome {
    if !w.submittedSaveThrows then AfterPollAndConfirm(op, w, b)
    else if recovery then AfterRetry(signed, op, STORE_ERROR, w, b.now)
    else Outcome(signed, Some(STORE_ERROR))
  }

  /** The network takes the payload of a stored signed record. */
  function AfterDeliver(signed: Operation, recovery: bool, w: Weather, b: Sys): Outcome
    requires signed.signed.Some?
  {
    var payload := signed.signed.value.payload;
    AfterTrack(signed, signed.(txHash := Some(S.Sha256(payload)), phase := Submitted), recovery, w,
               Transmit(b, signed.operationId, payload, w.staysPending))
  }

  function AfterSend(signed: Operation, recovery: bool, w: Weather, b: Sys): Outcome
    requires signed.signed.Some?
  {
    if w.submitThrows || !S.Signed(signed.signed.value.payload) then AfterRetry(signed, signed, RPC_ERROR, w, b.now)
    else AfterDeliver(signed, recovery, w, b)
  }

  function AfterSubmit(record: Operation, payload: S.Payload, signer: Address, assembled: S.Payload, w: Weather, b: Sys)
    : Outcome
  {
    if w.readThrows then Outcome(record, Some(STORE_ERROR))
    else if record.phase == Signed then
      if record.signed != Some(SignedPayload(payload, signer)) then Outcome(record, Some(UnauthorizedPayload))
      else AfterSend(record, true, w, b)
    else if record.phase != AwaitingSignature then Outcome(record, Some(InvalidTransition))
    else if signer != record.actorAddress then Outcome(record, Some(UnauthorizedPayload))
    else
      var final := FinalPayload(b, record, payload, signer, assembled);
      if final.None? then Outcome(record, Some(UnauthorizedPayload))
      else if w.signedSaveThrows then Outcome(record, Some(STORE_ERROR))
      else
        var signed := record.(signed := Some(SignedPayload(final.value, signer)), phase := Signed);
        AfterSend(signed, false, w, Saved(b, signed))
  }

  function AfterReconcile(record: Operation, w: Weather, b: Sys): Outcome {
    if w.readThrows then Outcome(record, Some(STORE_ERROR))
    else if !Reconcilable(record.phase) then Outcome(record, None)
    else AfterPollAndConfirm(record, w, b)
  }

  function Saved(b: Sys, op: Operation): Sys {
    b.(ops := b.ops[op.operationId := op])
  }

  /** The protocol lets a worker claim what a store without leases would hand out. */
  lemma ActionableIsClaimable(s: Sys, op: Operation)
    ensures Actionable(s, op) <==> Claimable(op, map[], s.now, s.maxAttempts)
  {}

  // ----- what a call does to the count of attempts -----

  /** The record ends, or exactly one attempt is counted. */
  predicate EndsOrCounts(before: Operation, after: Operation) {
    && after.operationId == before.operationId
    && (after.attemptCount == before.attemptCount + 1
        || (IsTerminal(after.phase) && after.attemptCount == before.attemptCount))
  }

  /** A call that fails without counting leaves a record with work to do, its attempts and backoff as they were. */
  predicate Uncounted(before: Operation, after: Operation) {
    && after.operationId == before.operationId && ActionablePhase(after.phase)
    && after.attemptCount == before.attemptCount && after.nextRetryAt == before.nextRetryAt
  }

  /** A retry was scheduled: one attempt is counted, and the record waits for its backoff in `phase`. */
  predicate Rescheduled(before: Operation, after: Operation, phase: Phase, now: nat) {
    && after.operationId == before.operationId && after.phase == phase
    && after.attemptCount == before.attemptCount + 1
    && after.nextRetryAt == Some(now + BackoffMs(after.attemptCount))
  }

  lemma PollAndConfirmCounts(record: Operation, w: Weather, b: Sys)
    requires ActionablePhase(record.phase)
    ensures var o := AfterPollAndConfirm(record, w, b);
            if o.error.None? then EndsOrCounts(record, o.record) else Uncounted(record, o.record)
    ensures AfterPollAndConfirm(record, w, b).error.Some? <==> PollRejects(record, w, b)
  {
    hide S.Poll, ReadbackMatches, MayMove;
  }

  /** Where nothing fails, the receipt of its hash settles the record. */
  lemma PollAndConfirmSettles(record: Operation, w: Weather, b: Sys)
    requires !PollRejects(record, w, b)
    ensures Settles(record.(phase := Confirming), ReceiptOf(b.chain, record.txHash.value), w.nullLedger, b.chain,
                    b.now, AfterPollAndConfirm(record, w, b).record)
  {
    hide ReadbackMatches, MayMove, BackoffMs;
  }

  /** When pollAndConfirm rejects. */
  predicate PollRejects(record: Operation, w: Weather, b: Sys) {
    || record.txHash.None? || !MayMove(record.phase, Confirming)
    || w.confirmingSaveThrows || w.pollThrows || w.outcomeSaveThrows
    || (w.readbackThrows && S.Poll(b.chain, record.txHash.value, w.nullLedger).TxSuccess?
        && S.Poll(b.chain, record.txHash.value, w.nullLedger).ledger.Some?)
  }

  // ----- a worker's claim -----

  /**
   * How one processed claim goes: when it starts, how its call goes, how long after a failure the error
   * handler runs, and what the store does to that.
   */
  datatype Luck = Luck(delay: nat, weather: Weather, handlerDelay: nat, handlerReadThrows: bool,
                       handlerSaveThrows: bool)

  /** The worker resends a signed record's own payload, and reconciles any other. */
  function AfterProcess(record: Operation, w: Weather, b: Sys): Outcome {
    if record.phase != Signed then AfterReconcile(record, w, b)
    else if record.signed.None? then Outcome(record, Some(InvalidTransition))
    else
      var p := record.signed.value;
      AfterSubmit(record, p.payload, p.signer, p.payload, w, b)
  }

  predicate HandlerFails(luck: Luck) {
    luck.handlerReadThrows || luck.handlerSaveThrows
  }

  /** What a processed claim leaves of its record. */
  function AfterClaim(record: Operation, luck: Luck, b: Sys): Operation {
    var o := AfterProcess(record, luck.weather, b);
    if o.error.None? || HandlerFails(luck) then o.record
    else
      var write := AfterWorkerError(o.record, o.error.value, b.now + luck.handlerDelay, b.maxAttempts);
      if write.None? then o.record else write.value
  }

  /** The resend of a signed record gets as far as the network. */
  predicate Delivers(record: Operation, w: Weather)
    requires record.signed.Some?
  {
    !w.submitThrows && S.Signed(record.signed.value.payload)
  }

  /** The call fails after scheduling a retry: it could not submit, or could not save the hash of what it submitted. */
  predicate Retries(record: Operation, w: Weather) {
    && record.phase == Signed && record.signed.Some? && !w.readThrows
    && (Delivers(record, w) ==> w.submittedSaveThrows)
    && !w.retrySaveThrows
  }

  /** The call fails and counts nothing. */
  predicate Slips(record: Operation, w: Weather, b: Sys) {
    || w.readThrows
    || if record.phase != Signed then PollRejects(record, w, b)
       else if record.signed.None? then true
       else if !Delivers(record, w) || w.submittedSaveThrows then w.retrySaveThrows
       else
         var payload := record.signed.value.payload;
         PollRejects(record.(txHash := Some(S.Sha256(payload)), phase := Submitted), w,
                     Transmit(b, record.operationId, payload, w.staysPending))
  }

  /** A retry was scheduled, and the error handler, not finding it signed and backed off, counts the failure again. */
  predicate CountsTwice(record: Operation, luck: Luck) {
    && Retries(record, luck.weather) && !HandlerFails(luck)
    && (Delivers(record, luck.weather) || BackoffMs(record.attemptCount + 1) <= luck.handlerDelay)
  }

  /** Neither the call nor the error handler counts the failure. */
  predicate CountsNone(record: Operation, luck: Luck, b: Sys) {
    Slips(record, luck.weather, b) && HandlerFails(luck)
  }

  lemma SendCounts(record: Operation, w: Weather, b: Sys)
    requires record.phase == Signed && record.signed.Some? && !w.readThrows
    ensures var o := AfterSend(record, true, w, b);
            && (o.error.None? <==> !Retries(record, w) && !Slips(record, w, b))
            && !(Retries(record, w) && Slips(record, w, b))
            && (o.error.None? ==> EndsOrCounts(record, o.record))
            && (Slips(record, w, b) ==> Uncounted(record, o.record))
            && (Retries(record, w) ==>
                Rescheduled(record, o.record, if Delivers(record, w) then Submitted else Signed, b.now))
  {
    hide S.Submit, S.Signed, PollRejects, AfterPollAndConfirm, BackoffMs;
    var payload := record.signed.value.payload;
    PollAndConfirmCounts(record.(txHash := Some(S.Sha256(payload)), phase := Submitted), w,
                         Transmit(b, record.operationId, payload, w.staysPending));
  }

  /** Every call a worker makes succeeds, schedules a retry, or slips. */
  lemma ProcessCounts(record: Operation, w: Weather, b: Sys)
    requires ActionablePhase(record.phase)
    ensures var o := AfterProcess(record, w, b);
            && (o.error.None? <==> !Retries(record, w) && !Slips(record, w, b))
            && !(Retries(record, w) && Slips(record, w, b))
            && (o.error.None? ==> EndsOrCounts(record, o.record))
            && (Slips(record, w, b) ==> Uncounted(record, o.record))
            && (Retries(record, w) ==>
                Rescheduled(record, o.record, if Delivers(record, w) then Submitted else Signed, b.now))
  {
    hide PollRejects, AfterPollAndConfirm, AfterSend, BackoffMs, Delivers;
    if record.phase == Signed {
      if record.signed.Some? && !w.readThrows { SendCounts(record, w, b); }
    } else {
      PollAndConfirmCounts(record, w, b);
    }
  }

  /**
   * A processed claim ends its operation or counts exactly one attempt, within the limit, exactly when
   * it does not count the failure twice and does not lose it.
   */
  lemma ClaimCountsOnceExactlyWhen(record: Operation, luck: Luck, b: Sys)
    requires Claimable(record, map[], b.now, b.maxAttempts)
    ensures var after := AfterClaim(record, luck, b);
            && (EndsOrCounts(record, after) <==> !CountsTwice(record, luck) && !CountsNone(record, luck, b))
            && (EndsOrCounts(record, after) ==> after.attemptCount <= b.maxAttempts)
            && (CountsTwice(record, luck) ==>
                && after.operationId == record.operationId && after.attemptCount == record.attemptCount + 2
                && after.phase
                   == if after.attemptCount <= b.maxAttempts then FailedRetryable else FailedTerminal)
            && (CountsNone(record, luck, b) ==> Uncounted(record, after))
  {
    hide AfterProcess, Retries, Slips, Delivers, BackoffMs;
    ProcessCounts(record, luck.weather, b);
  }

  /**
   * A claim that counted an attempt and left its record alive has it wait for the backoff of its attempts, from
   * when the call or the handler counted; and the handler records the call's error, or that it gave up.
   */
  lemma CountedClaimsWait(record: Operation, luck: Luck, b: Sys)
    requires Claimable(record, map[], b.now, b.maxAttempts)
    ensures var o, after := AfterProcess(record, luck.weather, b), AfterClaim(record, luck, b);
            && (after.attemptCount > record.attemptCount && !IsTerminal(after.phase) ==>
                && after.nextRetryAt.Some?
                && (after.nextRetryAt.value == b.now + BackoffMs(after.attemptCount)
                    || (o.error.Some? && !HandlerFails(luck)
                        && after.nextRetryAt.value == b.now + luck.handlerDelay + BackoffMs(after.attemptCount))))
            && (o.error.Some? && !HandlerFails(luck) ==>
                after.errorCode == (if after.phase == FailedTerminal then Some(MaxAttemptsExceeded) else o.error))
            && (o.error.Some? && !HandlerFails(luck) && after.phase == FailedRetryable ==>
                after.nextRetryAt == Some(b.now + luck.handlerDelay + BackoffMs(after.attemptCount)))
  {
    hide AfterProcess, Retries, Slips, Delivers, BackoffMs;
    ProcessCounts(record, luck.weather, b);
    ProcessWaits(record, luck.weather, b);
  }

  lemma ProcessWaits(record: Operation, w: Weather, b: Sys)
    requires ActionablePhase(record.phase)
    ensures var o := AfterProcess(record, w, b);
            o.error.None? && o.record.attemptCount > record.attemptCount ==>
              o.record.nextRetryAt == Some(b.now + BackoffMs(o.record.attemptCount))
  {
    hide S.Submit, S.Signed, AfterPollAndConfirm, BackoffMs;
    PollWaits(record, w, b);
    if record.phase == Signed && record.signed.Some? {
      var payload := record.signed.value.payload;
      PollWaits(record.(txHash := Some(S.Sha256(payload)), phase := Submitted), w,
                Transmit(b, record.operationId, payload, w.staysPending));
      SentNow(b, record.operationId, payload, w.staysPending);
    }
  }

  lemma SentNow(b: Sys, id: string, payload: S.Payload, staysPending: bool)
    ensures Transmit(b, id, payload, staysPending).now == b.now
  {}

  lemma PollWaits(record: Operation, w: Weather, b: Sys)
    ensures var o := AfterPollAndConfirm(record, w, b);
            o.error.None? && o.record.attemptCount > record.attemptCount ==>
              o.record.nextRetryAt == Some(b.now + BackoffMs(o.record.attemptCount))
  {
    hide S.Poll, ReadbackMatches, MayMove, BackoffMs;
  }

  /** The error handler of a claim leaves the transition table exactly when it counts twice and so passes the limit. */
  lemma ClaimLeavesTheTableExactlyWhen(record: Operation, luck: Luck, b: Sys)
    requires Claimable(record, map[], b.now, b.maxAttempts)
    ensures !MayMove(AfterProcess(record, luck.weather, b).record.phase, AfterClaim(record, luck, b).phase)
            <==> CountsTwice(record, luck) && record.attemptCount + 2 > b.maxAttempts
  {
    hide AfterProcess, Retries, Slips, Delivers, BackoffMs;
    ProcessCounts(record, luck.weather, b);
  }
}
