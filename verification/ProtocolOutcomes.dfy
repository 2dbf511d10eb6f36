/** How particular runs end: when a submission confirms, and when the worker leaves the transition table. */
module ProtocolOutcomes {
  import opened Common
  import opened Commands
  import opened Operations
  import opened Protocol
  import opened ProtocolInvariant
  import opened ProtocolSteps
  import opened ProtocolSafety
  import S = SimulatedChain

  // ----- when an undisturbed submission confirms -----

  /** The chain does not have the operation's effect yet, as far as its own record can show it. */
  predicate StillToDo(chain: S.Chain, c: Command) {
    match c
    case RegisterEntity(_, _, _, _, _) => true
    case IssueCredential(_, _, _, _, _, _, _, _, _) => SubjectKey(c) !in chain.credentials
    case RevokeCredential(_, _, _, _) => SubjectKey(c) in chain.credentials && !chain.credentials[SubjectKey(c)].revoked
  }

  /** What reading back right after an accepted submission shows, for each kind of operation. */
  lemma RegisterReadsBack(chain: S.Chain, wire: seq<Sent>, op: Operation)
    requires LogOk(chain, wire) && IntentOk(op) && op.signed.Some? && op.fingerprint.RegisterEntity?
    requires S.Validate(chain, op.signed.value.payload.call).None?
    ensures ReadbackMatches(S.Submit(chain, op.signed.value.payload, false).0, op)
  {
    hide IsHex64, HashDocument, CanonicalKey, LogOk;
    var payload := op.signed.value.payload;
    var after := S.Submit(chain, payload, false).0;
    EntitiesOf(chain, wire);
    S.SubmitExtends(chain, payload, false);
    S.AcceptedBecomesApplied(chain, payload, false);
    assert S.EntityOk(after.entities[op.subjectKey], after.entityVersions[op.subjectKey]);
  }

  lemma EntitiesOf(chain: S.Chain, wire: seq<Sent>)
    requires LogOk(chain, wire)
    ensures S.EntitiesOk(chain)
  {}

  lemma LoggedCredential(chain: S.Chain, wire: seq<Sent>, id: string)
    requires LogOk(chain, wire) && id in chain.credentials
    ensures chain.credentials[id].credentialId == id && chain.credentials[id].issuedLedger <= chain.ledger
    ensures chain.credentials[id].revokedLedger.Some? ==> chain.credentials[id].revokedLedger.value <= chain.ledger
    ensures chain.credentials[id].revoked == chain.credentials[id].revokedLedger.Some?
  {}

  lemma IssueReadsBack(chain: S.Chain, wire: seq<Sent>, op: Operation)
    requires LogOk(chain, wire) && IntentOk(op) && op.signed.Some? && op.fingerprint.IssueCredential?
    requires S.Validate(chain, op.signed.value.payload.call).None?
    ensures ReadbackMatches(S.Submit(chain, op.signed.value.payload, false).0, op.(ledger := Some(chain.ledger + 1)))
            <==> op.subjectKey !in chain.credentials
  {
    hide IsHex64, HashDocument, CanonicalKey, LogOk;
    if op.subjectKey in chain.credentials {
      LoggedCredential(chain, wire, op.subjectKey);
    }
  }

  lemma RevokeReadsBack(chain: S.Chain, wire: seq<Sent>, op: Operation)
    requires LogOk(chain, wire) && IntentOk(op) && op.signed.Some? && op.fingerprint.RevokeCredential?
    requires S.Validate(chain, op.signed.value.payload.call).None?
    ensures ReadbackMatches(S.Submit(chain, op.signed.value.payload, false).0, op.(ledger := Some(chain.ledger + 1)))
            <==> op.subjectKey in chain.credentials && !chain.credentials[op.subjectKey].revoked
  {
    hide IsHex64, HashDocument, CanonicalKey, LogOk;
    LoggedCredential(chain, wire, op.subjectKey);
  }

  lemma SubmissionReadsBack(chain: S.Chain, wire: seq<Sent>, op: Operation)
    requires LogOk(chain, wire) && IntentOk(op) && op.signed.Some? && op.signed.value.payload.Envelope?
    requires S.Validate(chain, op.signed.value.payload.call).None?
    ensures ReadbackMatches(S.Submit(chain, op.signed.value.payload, false).0, op.(ledger := Some(chain.ledger + 1)))
            <==> StillToDo(chain, op.fingerprint)
  {
    hide LogOk, IntentOk, ReadbackMatches, SubjectKey, S.Submit, S.Validate;
    KeyOf(op);
    match op.fingerprint
    case RegisterEntity(_, _, _, _, _) =>
      RegisterReadsBack(chain, wire, op.(ledger := Some(chain.ledger + 1))) by {
        SameIntent(op, op.(ledger := Some(chain.ledger + 1)));
      }
    case IssueCredential(_, _, _, _, _, _, _, _, _) => IssueReadsBack(chain, wire, op);
    case RevokeCredential(_, _, _, _) => RevokeReadsBack(chain, wire, op);
  }

  lemma KeyOf(op: Operation)
    requires IntentOk(op)
    ensures op.subjectKey == SubjectKey(op.fingerprint)
  {}

  lemma SameIntent(a: Operation, b: Operation)
    requires IntentOk(a) && b == a.(ledger := b.ledger)
    ensures IntentOk(b)
  {}

  lemma SubmissionReceipt(chain: S.Chain, payload: S.Payload)
    requires S.Signed(payload)
    ensures var after := S.Submit(chain, payload, false).0;
            S.Poll(after, S.Sha256(payload), false)
            == if S.Validate(chain, payload.call).None? then S.TxSuccess(Some(chain.ledger + 1)) else S.TxFailed
  {}

  function Next(s: Sys, id: string): Sys {
    Step(s, Advance(id, false, false))
  }

  /** From the submit to the last save, nothing failing and nothing interleaving. */
  function Undisturbed(s: Sys, id: string): Sys {
    Next(Next(Next(Next(Next(Next(s, id), id), id), id), id), id)
  }

  lemma ToTheNetwork(s: Sys, id: string)
    requires Inv(s) && id in s.calls && s.calls[id].frame.Submitting?
    ensures var op := s.calls[id].frame.op;
            && op == s.ops[id] && op.signed.Some? && S.Signed(op.signed.value.payload) && IntentOk(op)
            && op.operationId == id
            && var t := Next(s, id);
            && t.chain == S.Submit(s.chain, op.signed.value.payload, false).0 && id in t.calls && id in t.ops
            && t.calls[id].frame.SaveSubmitted?
            && t.calls[id].frame.op == op.(txHash := Some(S.Sha256(op.signed.value.payload)), phase := Submitted)
  {
    hide Inv, RestOk, S.Submit, CanonicalKey, SubjectKey, SpecFor, ExpectedFor;
    Enter(s, id);
  }

  lemma ToThePoll(s: Sys, id: string, op: Operation)
    requires id in s.calls && id in s.ops && s.calls[id].frame.SaveSubmitted? && s.calls[id].frame.op == op
    requires op.operationId == id && op.txHash.Some? && op.phase == Submitted
    ensures var t := Next(Next(s, id), id);
            t.chain == s.chain && id in t.calls && id in t.ops && t.calls[id].frame == Polling(op.(phase := Confirming))
  {
    hide S.Poll, S.Submit;
    var t := Next(s, id);
    assert t.calls[id].frame == SaveConfirming(op.(phase := Confirming)) && t.chain == s.chain && id in t.ops;
  }

  lemma ToTheEnd(s: Sys, id: string, op: Operation, ledger: nat)
    requires id in s.calls && id in s.ops && s.calls[id].frame == Polling(op) && op.operationId == id
             && op.txHash.Some? && op.phase == Confirming
    requires S.Poll(s.chain, op.txHash.value, false) == S.TxSuccess(Some(ledger))
    ensures var t := Next(Next(Next(s, id), id), id);
            id in t.ops
              && t.ops[id]
                 == AfterReadback(op.(ledger := Some(ledger)), ReadbackMatches(s.chain, op.(ledger := Some(ledger))))
            && id !in t.calls
  {
    hide S.Poll, S.Submit, ReadbackMatches;
    var t := Next(s, id);
    assert t.calls[id].frame == ReadingBack(op.(ledger := Some(ledger))) && t.chain == s.chain;
    var u := Next(t, id);
    assert u.calls[id].frame
      == SaveOutcome(AfterReadback(op.(ledger := Some(ledger)), ReadbackMatches(s.chain, op.(ledger := Some(ledger)))));
  }

  lemma ToTheFailure(s: Sys, id: string, op: Operation)
    requires id in s.calls && id in s.ops && s.calls[id].frame == Polling(op) && op.operationId == id
             && op.txHash.Some? && op.phase == Confirming
    requires S.Poll(s.chain, op.txHash.value, false) == S.TxFailed
    ensures var t := Next(Next(Next(s, id), id), id);
            id in t.ops && t.ops[id].phase == FailedTerminal && id !in t.calls
  {
    hide S.Poll, S.Submit, ReadbackMatches;
    var t := Next(s, id);
    assert t.calls[id].frame.SaveOutcome? && t.calls[id].frame.op.phase == FailedTerminal
      && t.calls[id].frame.op.operationId == id;
    var u := Next(t, id);
    assert u.ops[id].phase == FailedTerminal && id !in u.calls;
  }

  /**
   * An undisturbed submission, first or recovered, ends confirmed exactly when the chain accepts the
   * call and, for an issue, does not hold the credential yet, for a revocation, holds it unrevoked;
   * otherwise it ends failed for good.
   */
  lemma SubmissionConfirmsExactlyWhen(s: Sys, id: string)
    requires Inv(s) && id in s.calls && s.calls[id].frame.Submitting?
    ensures var op := s.calls[id].frame.op;
            var t := Undisturbed(s, id);
            && op.signed.Some? && op.signed.value.payload.Envelope? && id in t.ops && id !in t.calls
            && t.ops[id].phase
               == if S.Validate(s.chain, op.signed.value.payload.call).None? && StillToDo(s.chain, op.fingerprint)
                  then Confirmed else FailedTerminal
  {
    hide Inv, RestOk, LogOk, Next, S.Submit, S.Poll, S.Validate, StillToDo, ReadbackMatches, IntentOk;
    var op := s.calls[id].frame.op;
    ToTheNetwork(s, id);
    var payload := op.signed.value.payload;
    var submitted := op.(txHash := Some(S.Sha256(payload)), phase := Submitted);
    var t1 := Next(s, id);
    ToThePoll(t1, id, submitted);
    var t3 := Next(Next(t1, id), id);
    var confirming := submitted.(phase := Confirming);
    SubmissionReceipt(s.chain, payload);
    if S.Validate(s.chain, payload.call).None? {
      ToTheEnd(t3, id, confirming, s.chain.ledger + 1);
      LogOf(s);
      SameReadback(t1.chain, op.(ledger := Some(s.chain.ledger + 1)), confirming.(ledger := Some(s.chain.ledger + 1)));
      SubmissionReadsBack(s.chain, s.wire, op);
    } else {
      ToTheFailure(t3, id, confirming);
    }
  }

  lemma LogOf(s: Sys)
    requires Inv(s)
    ensures LogOk(s.chain, s.wire)
  {}

  /** Readback looks at the intent and the ledger only. */
  lemma SameReadback(chain: S.Chain, a: Operation, b: Operation)
    requires a.fingerprint == b.fingerprint && a.subjectKey == b.subjectKey && a.expected == b.expected
             && a.ledger == b.ledger
    ensures ReadbackMatches(chain, a) == ReadbackMatches(chain, b)
  {}

  // ----- leaving the transition table -----

  /**
   * The worker's error handler writes off the table exactly when it gives up on a signed or submitted
   * record; or on an unsigned one, which no worker is ever handed, while attempts are left.
   */
  lemma HandlerLeavesTheTableExactlyWhen(record: Operation, code: ErrorCode, now: nat, maxAttempts: nat)
    ensures var write := AfterWorkerError(record, code, now, maxAttempts);
            (write.Some? && !MayMove(record.phase, write.value.phase))
            <==>
            if record.attemptCount >= maxAttempts then
              record.phase == Submitted
                || (record.phase == Signed && (record.nextRetryAt.Some? ==> record.nextRetryAt.value <= now))
            else record.phase == AwaitingSignature
  {}

  /** The one worker of these runs. */
  const W := "w"

  /** Prepare, sign, save; then the process dies before it submits. */
  function SignedThenCrashed(c: Command, id: string, payload: S.Payload): seq<Action> {
    [PrepareStart(0, c), PrepareSimulate(0, id, false), PrepareCreate(0),
     SubmitSigned(id, payload, c.actorAddress, payload), Advance(id, false, false), Crash(id)]
  }

  /**
   * The worker picks the record up, its submission fails and is rescheduled, and its error handler comes a minute late.
   */
  function LateHandler(id: string): seq<Action> {
    [Claim(id, W), WorkerProcess(id, W), Fail(id, SubmissionFailed, false), Advance(id, false, false), Tick(60_000),
     Advance(id, false, false)]
  }

  ghost predicate WaitsSigned(s: Sys, id: string, op: Operation) {
    && id in s.ops && s.ops[id] == op && op.operationId == id && op.phase == Signed && op.signed.Some?
    && op.attemptCount == 0 && op.nextRetryAt.None? && id !in s.calls && s.maxAttempts == 1
  }

  lemma RunSix(s: Sys, a: Action, b: Action, c: Action, d: Action, e: Action, f: Action)
    ensures Run(s, [a, b, c, d, e, f]) == Step(Step(Step(Step(Step(Step(s, a), b), c), d), e), f)
  {
    hide Step;
    assert [a] + [b, c, d, e, f] == [a, b, c, d, e, f] && [b] + [c, d, e, f] == [b, c, d, e, f]
      && [c] + [d, e, f] == [c, d, e, f];
    assert [d] + [e, f] == [d, e, f] && [e] + [f] == [e, f];
    RunOne(s, a, [b, c, d, e, f]);
    RunOne(Step(s, a), b, [c, d, e, f]);
    var t := Step(Step(s, a), b);
    RunOne(t, c, [d, e, f]);
    RunOne(Step(t, c), d, [e, f]);
    RunOne(Step(Step(t, c), d), e, [f]);
    RunOne(Step(Step(Step(t, c), d), e), f, []);
  }

  lemma RunOne(s: Sys, a: Action, rest: seq<Action>)
    ensures Run(s, [a] + rest) == Run(Step(s, a), rest)
    ensures rest == [] ==> Run(s, [a]) == Step(s, a)
  {}

  lemma Prepares(c: Command, id: string)
    requires SpecFor(c).Ok? && S.Validate(S.Genesis(), SpecFor(c).value).None?
    ensures var s :=
            Step(Step(Step(Init(1, false), PrepareStart(0, c)), PrepareSimulate(0, id, false)), PrepareCreate(0));
            s == Init(1, false).(ops := map[id := NewOperation(c, id, None, false)],
                                 byKey := map[CanonicalKey(c) := id])
  {
    hide SpecFor, CanonicalKey, SubjectKey, ExpectedFor, S.Validate;
    var s1 := Step(Init(1, false), PrepareStart(0, c));
    assert s1 == Init(1, false).(preparing := map[0 := Simulating(c)]);
    var s2 := Step(s1, PrepareSimulate(0, id, false));
    assert s2 == Init(1, false).(preparing := map[0 := Creating(NewOperation(c, id, None, false))]);
  }

  lemma SignsAndCrashes(s: Sys, id: string, op: Operation, payload: S.Payload)
    requires id in s.ops && s.ops[id] == op && op.operationId == id && op.phase == AwaitingSignature && id !in s.calls
             && s.maxAttempts == 1
    requires op.prepared.Some? && SignedMatches(op.prepared.value, payload) && op.attemptCount == 0
             && op.nextRetryAt.None?
    requires op.actorAddress != "" && op.actorAddress[0] != 'C'
    ensures var t :=
            Step(Step(Step(s, SubmitSigned(id, payload, op.actorAddress, payload)), Advance(id, false, false)),
                 Crash(id));
            id in t.ops && WaitsSigned(t, id, t.ops[id])
  {
    var signed := op.(signed := Some(SignedPayload(payload, op.actorAddress)), phase := Signed);
    var t := Step(s, SubmitSigned(id, payload, op.actorAddress, payload));
    assert t == At(s, id, Api, SaveSigned(signed));
    var u := Step(t, Advance(id, false, false));
    assert u.ops == s.ops[id := signed] && u.maxAttempts == 1;
  }

  lemma CrashLeavesSigned(c: Command, id: string, signature: string)
    requires SpecFor(c).Ok? && S.Validate(S.Genesis(), SpecFor(c).value).None? && c.actorAddress != ""
             && c.actorAddress[0] != 'C'
    ensures var s := Run(Init(1, false), SignedThenCrashed(c, id, S.Envelope(SpecFor(c).value, Some(signature))));
            id in s.ops && WaitsSigned(s, id, s.ops[id])
  {
    hide SpecFor, CanonicalKey, SubjectKey, ExpectedFor, S.Validate, Step;
    var payload := S.Envelope(SpecFor(c).value, Some(signature));
    var s := Step(Step(Step(Init(1, false), PrepareStart(0, c)), PrepareSimulate(0, id, false)), PrepareCreate(0));
    Prepares(c, id);
    SignsAndCrashes(s, id, NewOperation(c, id, None, false), payload);
    RunSix(Init(1, false), PrepareStart(0, c), PrepareSimulate(0, id, false), PrepareCreate(0),
           SubmitSigned(id, payload, c.actorAddress, payload), Advance(id, false, false), Crash(id));
  }

  lemma ResendFails(s: Sys, id: string, op: Operation)
    requires WaitsSigned(s, id, op)
    ensures var t := Step(Step(Step(s, Claim(id, W)), WorkerProcess(id, W)), Fail(id, SubmissionFailed, false));
            && t.ops == s.ops && t.now == s.now && t.maxAttempts == 1 && id in t.calls
            && t.calls[id]
               == InFlight(Worker, SaveRetry(ScheduleRetry(op, s.now).(errorCode := Some(SubmissionFailed))))
  {
    hide ScheduleRetry, StartPoll, S.Submit, S.Signed;
    var s1 := Step(s, Claim(id, W));
    assert s1 == s.(claimed := s.claimed[Copy(W, id) := op]);
    var s2 := Step(s1, WorkerProcess(id, W));
    assert s2 == At(s.(claimed := s1.claimed - {Copy(W, id)}), id, Worker, Submitting(op, true));
  }

  lemma HandlerComesLate(s: Sys, id: string, retry: Operation)
    requires id in s.ops && id in s.calls && s.calls[id] == InFlight(Worker, SaveRetry(retry)) && s.maxAttempts == 1
    requires retry.operationId == id && retry.phase == Signed && retry.attemptCount == 1
    requires retry.nextRetryAt.Some? && retry.nextRetryAt.value <= s.now + 60_000
    ensures var t := Step(Step(Step(s, Advance(id, false, false)), Tick(60_000)), Advance(id, false, false));
            var u := Step(t, Advance(id, false, false));
            id in t.ops && t.ops[id].phase == Signed && id in u.ops && u.ops[id].phase == FailedTerminal
  {
    hide StartPoll, S.Submit, S.Signed, S.Poll, AfterPoll;
    var s1 := Step(s, Advance(id, false, false));
    assert s1 == At(s.(ops := s.ops[id := retry]), id, Worker, HandlerRead(SubmissionFailed));
    var s2 := Step(s1, Tick(60_000));
    var t := Step(s2, Advance(id, false, false));
    assert t.ops == s1.ops && t.calls[id].frame.HandlerSave? && t.calls[id].frame.op.phase == FailedTerminal
      && t.calls[id].frame.op.operationId == id;
  }

  lemma LateHandlerGivesUp(s: Sys, id: string, op: Operation)
    requires WaitsSigned(s, id, op)
    ensures var t := Run(s, LateHandler(id));
            && id in t.ops && t.ops[id].phase == Signed
            && id in Step(t, Advance(id, false, false)).ops
            && Step(t, Advance(id, false, false)).ops[id].phase == FailedTerminal
  {
    hide Step;
    ResendFails(s, id, op);
    HandlerComesLate(Step(Step(Step(s, Claim(id, W)), WorkerProcess(id, W)), Fail(id, SubmissionFailed, false)), id,
                     ScheduleRetry(op, s.now).(errorCode := Some(SubmissionFailed)));
    RunSix(s, Claim(id, W), WorkerProcess(id, W), Fail(id, SubmissionFailed, false), Advance(id, false, false),
           Tick(60_000), Advance(id, false, false));
  }

  /**
   * The transition table is not kept by every run: with one attempt allowed, a crash between signing
   * and submitting, one failed resend and a late error handler save failed_terminal over signed.
   */
  lemma LateHandlerLeavesTheTable(c: Command, id: string, signature: string)
    requires SpecFor(c).Ok? && S.Validate(S.Genesis(), SpecFor(c).value).None? && c.actorAddress != ""
             && c.actorAddress[0] != 'C'
    ensures exists run, next :: var s := Run(Init(1, false), run);
                                id in s.ops && id in Step(s, next).ops
                                  && !MayMove(s.ops[id].phase, Step(s, next).ops[id].phase)
  {
    hide SpecFor, S.Validate, Step;
    var payload := S.Envelope(SpecFor(c).value, Some(signature));
    var first, second := SignedThenCrashed(c, id, payload), LateHandler(id);
    var s := Run(Init(1, false), first);
    CrashLeavesSigned(c, id, signature);
    LateHandlerGivesUp(s, id, s.ops[id]);
    RunConcat(Init(1, false), first, second);
    var run, next := first + second, Advance(id, false, false);
    assert id in Run(Init(1, false), run).ops
      && !MayMove(Run(Init(1, false), run).ops[id].phase, Step(Run(Init(1, false), run), next).ops[id].phase);
  }
}
