/**
 * Runs that show what the protocol does not promise: a crash and a failed poll, each with its credential
 * on the chain, and store calls that reject, so that one failure is counted twice or never.
 */
module ProtocolRuns {
  import opened Common
  import opened Commands
  import opened Operations
  import opened Protocol
  import opened ProtocolInvariant
  import opened ProtocolSteps
  import opened ProtocolSafety
  import opened ProtocolOutcomes
  import opened ProtocolRecovery
  import S = SimulatedChain

  /** Prepare, sign, save, submit: the payload is on the chain, its hash is not saved yet. */
  function OnItsWay(c: Command, id: string, payload: S.Payload): seq<Action> {
    [PrepareStart(0, c), PrepareSimulate(0, id, false), PrepareCreate(0),
     SubmitSigned(id, payload, c.actorAddress, payload), Advance(id, false, false), Advance(id, false, false)]
  }

  /** A command that an empty chain accepts from a classic account. */
  predicate Issuable(c: Command) {
    && c.IssueCredential? && SpecFor(c).Ok? && S.Validate(S.Genesis(), SpecFor(c).value).None?
    && c.actorAddress != "" && c.actorAddress[0] != 'C'
  }

  ghost predicate Submits(s: Sys, id: string, signed: Operation, payload: S.Payload) {
    && s.chain == S.Submit(S.Genesis(), payload, false).0 && s.ops == map[id := signed] && s.maxAttempts == 1
    && s.claimed == map[] && s.calls
       == map[id := InFlight(Api, SaveSubmitted(signed.(txHash := Some(S.Sha256(payload)), phase := Submitted), false))]
  }

  function SignedAs(c: Command, id: string, payload: S.Payload): Operation
    requires SpecFor(c).Ok?
  {
    NewOperation(c, id, None, false).(signed := Some(SignedPayload(payload, c.actorAddress)), phase := Signed)
  }

  lemma SignsAndSubmits(s: Sys, id: string, op: Operation, payload: S.Payload)
    requires s == Init(1, false).(ops := map[id := op], byKey := s.byKey)
    requires op.operationId == id && op.phase == AwaitingSignature && op.prepared.Some?
             && SignedMatches(op.prepared.value, payload)
    requires op.actorAddress != "" && op.actorAddress[0] != 'C'
    ensures var signed := op.(signed := Some(SignedPayload(payload, op.actorAddress)), phase := Signed);
            var t := Step(Step(Step(s, SubmitSigned(id, payload, op.actorAddress, payload)),
                               Advance(id, false, false)), Advance(id, false, false));
            Submits(t, id, signed, payload)
  {
    hide S.Submit, S.Poll, AfterPoll, StartPoll;
    var signed := op.(signed := Some(SignedPayload(payload, op.actorAddress)), phase := Signed);
    var t := Step(s, SubmitSigned(id, payload, op.actorAddress, payload));
    assert t == At(s, id, Api, SaveSigned(signed));
    var u := Step(t, Advance(id, false, false));
    assert u == At(s.(ops := map[id := signed]), id, Api, Submitting(signed, false));
  }

  lemma GetsOnItsWay(c: Command, id: string, signature: string)
    requires Issuable(c)
    ensures var payload := S.Envelope(SpecFor(c).value, Some(signature));
            Submits(Run(Init(1, false), OnItsWay(c, id, payload)), id, SignedAs(c, id, payload), payload)
  {
    hide SpecFor, CanonicalKey, SubjectKey, ExpectedFor, S.Validate, Step, Submits, Run;
    var payload := S.Envelope(SpecFor(c).value, Some(signature));
    var s := Step(Step(Step(Init(1, false), PrepareStart(0, c)), PrepareSimulate(0, id, false)), PrepareCreate(0));
    Prepares(c, id);
    SignsAndSubmits(s, id, NewOperation(c, id, None, false), payload);
    RunSix(Init(1, false), PrepareStart(0, c), PrepareSimulate(0, id, false), PrepareCreate(0),
           SubmitSigned(id, payload, c.actorAddress, payload), Advance(id, false, false), Advance(id, false, false));
  }

  /** The first submission of an issue writes the credential, in the first ledger. */
  lemma FirstIssueWrites(c: Command, signature: string)
    requires Issuable(c)
    ensures var payload := S.Envelope(SpecFor(c).value, Some(signature));
            var chain := S.Submit(S.Genesis(), payload, false).0;
            && SubjectKey(c) in chain.credentials
            && S.Poll(chain, S.Sha256(payload), false) == S.TxSuccess(Some(S.GENESIS + 1))
  {
    hide IsHex64, HashDocument;
  }

  lemma CrashForgetsTheHash(s: Sys, id: string, signed: Operation, payload: S.Payload)
    requires Submits(s, id, signed, payload)
    ensures var t := Step(s, Crash(id)); t.ops == s.ops && t.chain == s.chain && id !in t.calls
  {
    hide S.Submit;
  }

  /**
   * The process dies between submitting and saving the hash; recovery sends the same payload again,
   * undisturbed. The credential is on the chain and the operation has failed for good.
   */
  lemma CrashedSubmissionEndsFailed(c: Command, id: string, signature: string)
    requires Issuable(c)
    ensures exists run :: var s := Run(Init(1, false), run);
                          id in s.ops && s.ops[id].phase == FailedTerminal && SubjectKey(c) in s.chain.credentials
  {
    hide SpecFor, CanonicalKey, SubjectKey, ExpectedFor, S.Validate, Step, Submits, Run, Inv, Recovery, S.Submit,
         OnItsWay, S.Poll;
    var payload := S.Envelope(SpecFor(c).value, Some(signature));
    var first := OnItsWay(c, id, payload);
    var signed := SignedAs(c, id, payload);
    var s1 := Run(Init(1, false), first);
    GetsOnItsWay(c, id, signature);
    CrashForgetsTheHash(s1, id, signed, payload);
    RunSnoc(Init(1, false), first, Crash(id));
    var crashed := first + [Crash(id)];
    var s2 := Run(Init(1, false), crashed);
    InitInv(1, false);
    RunKeeps(Init(1, false), crashed);
    SubmittedFacts(s1, id, signed, payload);
    FirstIssueWrites(c, signature);
    SignedForIt(c, id, payload);
    RecoveryRuns(s2, id);
    var again := Recovery(id, s2.ops[id].signed.value);
    EffectRemains(s2, again, id);
    RunConcat(Init(1, false), crashed, again);
    var run := crashed + again;
    assert id in Run(Init(1, false), run).ops && Run(Init(1, false), run).ops[id].phase == FailedTerminal;
  }

  lemma SignedForIt(c: Command, id: string, payload: S.Payload)
    requires SpecFor(c).Ok? && c.IssueCredential?
    ensures var op := SignedAs(c, id, payload);
            && op.phase == Signed && op.txHash.None? && op.subjectKey == SubjectKey(c)
            && op.fingerprint.IssueCredential?
            && SubjectKey(op.fingerprint) == SubjectKey(c)
  {}

  lemma EffectRemains(s: Sys, later: seq<Action>, id: string)
    requires Inv(s) && NoHash(s, id) && EffectLedger(s.chain, s.ops[id]).Some?
    ensures s.ops[id].subjectKey in Run(s, later).chain.credentials
  {
    hide Inv, HashAfter, Run;
    var ledger := EffectLedger(s.chain, s.ops[id]).value;
    NoHashIsLate(s, id, ledger);
    RunLate(s, later, id, ledger);
    IntentRemains(s, later, id);
  }

  lemma SubmittedFacts(s: Sys, id: string, signed: Operation, payload: S.Payload)
    requires Submits(s, id, signed, payload)
    ensures s.chain == S.Submit(S.Genesis(), payload, false).0 && s.ops == map[id := signed]
  {}

  // ----- a poll that throws -----

  /** The call gets as far as saving `submitted` and dies; a worker claims the record, and its poll throws. */
  function PollThrows(id: string): seq<Action> {
    [Advance(id, false, false), Crash(id), Claim(id, W), WorkerProcess(id, W), Advance(id, false, false),
     Fail(id, SubmissionFailed, false)]
  }

  function HandlerRuns(id: string): seq<Action> {
    [Advance(id, false, false), Advance(id, false, false)]
  }

  lemma WorkerPollFails(s: Sys, id: string, signed: Operation, payload: S.Payload)
    requires Submits(s, id, signed, payload) && signed.operationId == id && signed.attemptCount == 0
             && signed.nextRetryAt.None?
    ensures var t := Run(s, PollThrows(id));
            && t.chain == s.chain && t.maxAttempts == 1 && id in t.ops && id in t.calls
            && t.ops[id] == signed.(txHash := Some(S.Sha256(payload)), phase := Confirming)
            && t.calls[id] == InFlight(Worker, HandlerRead(SubmissionFailed))
  {
    hide S.Submit, S.Poll, AfterPoll, ScheduleRetry, Run;
    var submitted := signed.(txHash := Some(S.Sha256(payload)), phase := Submitted);
    var confirming := submitted.(phase := Confirming);
    var s1 := Step(s, Advance(id, false, false));
    assert s1 == At(s.(ops := s.ops[id := submitted]), id, Api, SaveConfirming(confirming));
    var s2 := Step(s1, Crash(id));
    assert s2.ops == s1.ops && id !in s2.calls && s2.chain == s.chain && s2.maxAttempts == 1;
    WorkerPolls(s2, id, submitted);
    RunSix(s, Advance(id, false, false), Crash(id), Claim(id, W), WorkerProcess(id, W), Advance(id, false, false),
           Fail(id, SubmissionFailed, false));
  }

  lemma WorkerPolls(s: Sys, id: string, submitted: Operation)
    requires id in s.ops && s.ops[id] == submitted && submitted.operationId == id && id !in s.calls
             && s.maxAttempts == 1
    requires submitted.phase == Submitted && submitted.txHash.Some? && submitted.attemptCount == 0
             && submitted.nextRetryAt.None?
    ensures var t :=
            Step(Step(Step(Step(s, Claim(id, W)), WorkerProcess(id, W)), Advance(id, false, false)),
                 Fail(id, SubmissionFailed, false));
            && t.chain == s.chain && t.maxAttempts == 1 && id in t.ops && id in t.calls
            && t.ops[id] == submitted.(phase := Confirming)
            && t.calls[id] == InFlight(Worker, HandlerRead(SubmissionFailed))
  {
    hide S.Submit, S.Poll, AfterPoll, ScheduleRetry, FailCall, StartSubmit;
    var confirming := submitted.(phase := Confirming);
    var s1 := Step(s, Claim(id, W));
    assert s1 == s.(claimed := s.claimed[Copy(W, id) := submitted]);
    var s2 := Step(s1, WorkerProcess(id, W));
    assert s2 == At(s.(claimed := s1.claimed - {Copy(W, id)}), id, Worker, SaveConfirming(confirming));
    var s3 := Step(s2, Advance(id, false, false));
    assert s3.ops == s.ops[id := confirming] && s3.calls[id] == InFlight(Worker, Polling(confirming))
      && s3.chain == s.chain;
    PollingFails(s3, id, confirming);
  }

  lemma PollingFails(s: Sys, id: string, op: Operation)
    requires id in s.calls && s.calls[id] == InFlight(Worker, Polling(op))
    ensures var t := Step(s, Fail(id, SubmissionFailed, false));
            && t.chain == s.chain && t.maxAttempts == s.maxAttempts && t.ops == s.ops
            && id in t.calls && t.calls[id] == InFlight(Worker, HandlerRead(SubmissionFailed))
  {
    hide S.Submit, ScheduleRetry;
  }

  lemma HandlerRetries(s: Sys, id: string, op: Operation)
    requires id in s.ops && s.ops[id] == op && op.operationId == id && op.phase == Confirming && op.attemptCount == 0
             && s.maxAttempts == 1
    requires id in s.calls && s.calls[id] == InFlight(Worker, HandlerRead(SubmissionFailed))
    ensures var t := Run(s, HandlerRuns(id));
            && t.chain == s.chain && id in t.ops
            && t.ops[id]
               == op.(phase := FailedRetryable, attemptCount := 1, errorCode := Some(SubmissionFailed),
                      nextRetryAt := t.ops[id].nextRetryAt)
  {
    hide S.Submit, S.Poll, AfterPoll;
    var s1 := Step(s, Advance(id, false, false));
    assert s1.ops == s.ops && s1.chain == s.chain && s1.calls[id].frame.HandlerSave?;
    RunOne(s, Advance(id, false, false), [Advance(id, false, false)]);
    RunOne(s1, Advance(id, false, false), []);
    assert HandlerRuns(id) == [Advance(id, false, false)] + [Advance(id, false, false)];
  }

  /**
   * A worker's poll throws on a confirming operation whose transaction succeeded. The operation ends
   * failed_retryable with its credential on the chain, where polling and reading back once more would
   * have confirmed it; and it never confirms.
   */
  lemma ThrownPollLosesAConfirmation(c: Command, id: string, signature: string)
    requires Issuable(c)
    ensures exists run, ledger :: var s := Run(Init(1, false), run);
              && id in s.ops && s.ops[id].phase == FailedRetryable && s.ops[id].txHash.Some?
              && S.Poll(s.chain, s.ops[id].txHash.value, false) == S.TxSuccess(Some(ledger))
              && ReadbackMatches(s.chain, s.ops[id].(ledger := Some(ledger)))
              && forall later :: id in Run(s, later).ops && Run(s, later).ops[id].phase != Confirmed
  {
    hide SpecFor, CanonicalKey, SubjectKey, ExpectedFor, S.Validate, Step, Submits, Run, Inv, S.Submit, OnItsWay,
         S.Poll;
    hide PollThrows, HandlerRuns, ReadbackMatches;
    var payload := S.Envelope(SpecFor(c).value, Some(signature));
    var first := OnItsWay(c, id, payload);
    var signed := SignedAs(c, id, payload);
    var s1 := Run(Init(1, false), first);
    GetsOnItsWay(c, id, signature);
    SubmittedFacts(s1, id, signed, payload);
    WorkerPollFails(s1, id, signed, payload);
    var s2 := Run(s1, PollThrows(id));
    HandlerRetries(s2, id, signed.(txHash := Some(S.Sha256(payload)), phase := Confirming));
    RunConcat(Init(1, false), first, PollThrows(id));
    RunConcat(Init(1, false), first + PollThrows(id), HandlerRuns(id));
    var run := first + PollThrows(id) + HandlerRuns(id);
    var s := Run(Init(1, false), run);
    InitInv(1, false);
    RunKeeps(Init(1, false), run);
    FirstIssueWrites(c, signature);
    FirstIssueReadsBack(c, id, signature);
    SameReadback(s.chain, signed.(ledger := Some(S.GENESIS + 1)), s.ops[id].(ledger := Some(S.GENESIS + 1)));
    forall later ensures id in Run(s, later).ops && Run(s, later).ops[id].phase != Confirmed {
      RetryableNeverConfirms(s, later, id);
    }
  }

  lemma FirstIssueReadsBack(c: Command, id: string, signature: string)
    requires Issuable(c)
    ensures var payload := S.Envelope(SpecFor(c).value, Some(signature));
            ReadbackMatches(S.Submit(S.Genesis(), payload, false).0,
                            SignedAs(c, id, payload).(ledger := Some(S.GENESIS + 1)))
  {
    hide IsHex64, HashDocument;
  }

  // ----- a failure that is counted twice -----

  /** The worker's resend reaches the network, the save of its hash rejects, the rescheduled record is saved. */
  function HashNotSaved(id: string): seq<Action> {
    [Claim(id, W), WorkerProcess(id, W), Advance(id, false, false), Fail(id, SubmissionFailed, false),
     Advance(id, false, false), Advance(id, false, false)]
  }

  ghost predicate BackedOff(s: Sys, id: string) {
    && id in s.ops && s.ops[id].phase == Submitted && s.ops[id].attemptCount == 1
    && s.ops[id].nextRetryAt.Some? && s.ops[id].nextRetryAt.value > s.now
  }

  ghost predicate GivenUpOn(s: Sys, id: string) {
    id in s.ops && s.ops[id].phase == FailedTerminal && s.ops[id].attemptCount == 2
  }

  lemma ResendReaches(s: Sys, id: string, op: Operation)
    requires WaitsSigned(s, id, op) && S.Signed(op.signed.value.payload)
    ensures var submitted := op.(txHash := Some(S.Sha256(op.signed.value.payload)), phase := Submitted);
            var t := Step(Step(Step(s, Claim(id, W)), WorkerProcess(id, W)), Advance(id, false, false));
            && t.ops == s.ops && t.now == s.now && t.maxAttempts == 1 && id in t.calls
            && t.calls[id] == InFlight(Worker, SaveSubmitted(submitted, true))
  {
    hide ScheduleRetry, StartPoll, S.Submit, S.Signed;
    var s1 := Step(s, Claim(id, W));
    assert s1 == s.(claimed := s.claimed[Copy(W, id) := op]);
    var s2 := Step(s1, WorkerProcess(id, W));
    assert s2 == At(s.(claimed := s1.claimed - {Copy(W, id)}), id, Worker, Submitting(op, true));
  }

  lemma RetryIsSaved(s: Sys, id: string, op: Operation)
    requires id in s.ops && id in s.calls && s.calls[id] == InFlight(Worker, SaveSubmitted(op, true))
             && s.maxAttempts == 1
    requires op.operationId == id && op.phase == Submitted && op.attemptCount == 0
    ensures var t := Step(Step(s, Fail(id, SubmissionFailed, false)), Advance(id, false, false));
            && BackedOff(t, id) && t.maxAttempts == 1 && t.ops[id].operationId == id
            && id in t.calls && t.calls[id] == InFlight(Worker, HandlerRead(SubmissionFailed))
  {
    hide StartPoll, S.Submit, S.Signed, S.Poll, AfterPoll;
    var s1 := Step(s, Fail(id, SubmissionFailed, false));
    var retry := ScheduleRetry(op, s.now).(errorCode := Some(SubmissionFailed));
    assert s1 == At(s, id, Worker, SaveRetry(retry));
    assert Step(s1, Advance(id, false, false)) == At(s.(ops := s.ops[id := retry]), id, Worker,
                                                     HandlerRead(SubmissionFailed));
  }

  lemma HandlerCountsAgain(s: Sys, id: string)
    requires BackedOff(s, id) && s.maxAttempts == 1 && s.ops[id].operationId == id
    requires id in s.calls && s.calls[id] == InFlight(Worker, HandlerRead(SubmissionFailed))
    ensures var t := Step(s, Advance(id, false, false));
            BackedOff(t, id) && GivenUpOn(Step(t, Advance(id, false, false)), id)
  {
    hide StartPoll, S.Submit, S.Signed, S.Poll, AfterPoll;
    var t := Step(s, Advance(id, false, false));
    assert t.ops == s.ops && t.now == s.now && t.calls[id].frame.HandlerSave?;
  }

  /**
   * With one attempt allowed and no time passing, one failure is counted twice: the resend reaches the
   * network, the save of its hash rejects, the record is rescheduled as submitted, and the handler, at
   * once, saves failed_terminal over it. The table has no such move, and the attempts pass the limit.
   */
  lemma CountedTwiceLeavesTheTable(c: Command, id: string, signature: string)
    requires Issuable(c)
    ensures exists run: seq<Action>, next :: var s := Run(Init(1, false), run);
              && (forall a :: a in run ==> !a.Tick?)
              && BackedOff(s, id) && GivenUpOn(Step(s, next), id) && !MayMove(Submitted, FailedTerminal)
  {
    hide SpecFor, S.Validate, Step, BackedOff, GivenUpOn, Run;
    var payload := S.Envelope(SpecFor(c).value, Some(signature));
    var first, second := SignedThenCrashed(c, id, payload), HashNotSaved(id);
    var s := Run(Init(1, false), first);
    CrashLeavesSigned(c, id, signature);
    SignedPayloadOf(first, id);
    var op := s.ops[id];
    ResendReaches(s, id, op);
    var s3 := Step(Step(Step(s, Claim(id, W)), WorkerProcess(id, W)), Advance(id, false, false));
    RetryIsSaved(s3, id, s3.calls[id].frame.op);
    HandlerCountsAgain(Step(Step(s3, Fail(id, SubmissionFailed, false)), Advance(id, false, false)), id);
    RunSix(s, Claim(id, W), WorkerProcess(id, W), Advance(id, false, false), Fail(id, SubmissionFailed, false),
           Advance(id, false, false), Advance(id, false, false));
    RunConcat(Init(1, false), first, second);
    var run, next := first + second, Advance(id, false, false);
    assert BackedOff(Run(Init(1, false), run), id) && GivenUpOn(Step(Run(Init(1, false), run), next), id);
  }

  lemma SignedPayloadOf(run: seq<Action>, id: string)
    requires id in Run(Init(1, false), run).ops && Run(Init(1, false), run).ops[id].signed.Some?
    ensures S.Signed(Run(Init(1, false), run).ops[id].signed.value.payload)
  {
    RecordsMatchTheirPhase(1, false, run, id);
  }

  // ----- a failure that is never counted -----

  /** A claim whose poll throws, and whose error handler cannot save. */
  function Round(id: string): seq<Action> {
    [Claim(id, W), WorkerProcess(id, W), Advance(id, false, false), Fail(id, SubmissionFailed, false),
     Advance(id, false, false), Fail(id, SubmissionFailed, false)]
  }

  function Rounds(id: string, n: nat): seq<Action> {
    if n == 0 then [] else Rounds(id, n - 1) + Round(id)
  }

  /** A record a worker would claim, confirming, with no call in flight and no copy handed out. */
  ghost predicate Waits(s: Sys, id: string) {
    && id in s.ops && s.ops[id].operationId == id && s.ops[id].phase == Confirming && s.ops[id].txHash.Some?
    && Actionable(s, s.ops[id]) && s.calls == map[] && s.claimed == map[]
  }

  lemma RunThree(s: Sys, a: Action, b: Action, c: Action)
    ensures Run(s, [a, b, c]) == Step(Step(Step(s, a), b), c)
  {
    hide Step;
    assert [a] + [b, c] == [a, b, c] && [b] + [c] == [b, c];
    RunOne(s, a, [b, c]);
    RunOne(Step(s, a), b, [c]);
    RunOne(Step(Step(s, a), b), c, []);
  }

  lemma RoundStarts(s: Sys, id: string)
    requires Waits(s, id)
    ensures Step(Step(s, Claim(id, W)), WorkerProcess(id, W)) == At(s, id, Worker, SaveConfirming(s.ops[id]))
  {
    hide StartSubmit, Actionable;
    var s1 := Step(s, Claim(id, W));
    assert s1 == s.(claimed := map[Copy(W, id) := s.ops[id]]);
  }

  lemma RoundPolls(s: Sys, id: string)
    requires Waits(s, id)
    ensures Step(Step(At(s, id, Worker, SaveConfirming(s.ops[id])), Advance(id, false, false)),
                 Fail(id, SubmissionFailed, false)) == At(s, id, Worker, HandlerRead(SubmissionFailed))
  {
    hide S.Submit, S.Poll, AfterPoll, Actionable;
    var op := s.ops[id];
    var polling := Step(At(s, id, Worker, SaveConfirming(op)), Advance(id, false, false));
    assert polling == At(s, id, Worker, Polling(op)) by { assert s.ops[id := op] == s.ops; }
  }

  lemma RoundChangesNothing(s: Sys, id: string)
    requires Waits(s, id)
    ensures Run(s, Round(id)) == s
  {
    hide Waits, Step, Run, At;
    RoundStarts(s, id);
    RoundPolls(s, id);
    HandlerGivesNothing(s, id);
    RunSix(s, Claim(id, W), WorkerProcess(id, W), Advance(id, false, false), Fail(id, SubmissionFailed, false),
           Advance(id, false, false), Fail(id, SubmissionFailed, false));
  }

  lemma HandlerGivesNothing(s: Sys, id: string)
    requires Waits(s, id)
    ensures Step(Step(At(s, id, Worker, HandlerRead(SubmissionFailed)), Advance(id, false, false)),
                 Fail(id, SubmissionFailed, false)) == s
  {
    hide S.Submit, S.Poll, AfterPoll, StartPoll, Actionable;
    var t := Step(At(s, id, Worker, HandlerRead(SubmissionFailed)), Advance(id, false, false));
    assert t == At(s, id, Worker, t.calls[id].frame) && t.calls[id].frame.HandlerSave?;
  }

  lemma {:induction false} RoundsChangeNothing(s: Sys, id: string, n: nat)
    requires Waits(s, id)
    ensures Run(s, Rounds(id, n)) == s
  {
    hide Waits, Step, Round;
    if n != 0 {
      RoundsChangeNothing(s, id, n - 1);
      RunConcat(s, Rounds(id, n - 1), Round(id));
      RoundChangesNothing(s, id);
    }
  }

  lemma ConfirmingThenCrash(s: Sys, id: string, signed: Operation, payload: S.Payload)
    requires Submits(s, id, signed, payload) && signed.operationId == id && signed.attemptCount == 0
             && signed.nextRetryAt.None?
    ensures Waits(Run(s, [Advance(id, false, false), Advance(id, false, false), Crash(id)]), id)
  {
    hide S.Submit, S.Poll, AfterPoll, Run;
    var confirming := signed.(txHash := Some(S.Sha256(payload)), phase := Confirming);
    var s1 := Step(s, Advance(id, false, false));
    assert s1 == At(s.(ops := s1.ops), id, Api, SaveConfirming(confirming)) && id in s1.ops;
    var s2 := Step(s1, Advance(id, false, false));
    assert s2.ops[id] == confirming && s2.calls == map[id := InFlight(Api, Polling(confirming))];
    var s3 := Step(s2, Crash(id));
    assert s3.calls == map[];
    RunThree(s, Advance(id, false, false), Advance(id, false, false), Crash(id));
  }

  /**
   * As long as the poll throws and the handler's save rejects, no attempt is ever counted: a reachable
   * record can be claimed and processed any number of times and be as it was.
   */
  lemma UncountedForEver(c: Command, id: string, signature: string)
    requires Issuable(c)
    ensures exists run :: && Waits(Run(Init(1, false), run), id)
                          && forall n :: Run(Run(Init(1, false), run), Rounds(id, n)) == Run(Init(1, false), run)
  {
    hide SpecFor, S.Validate, Step, Submits, Run, OnItsWay, Waits, Round;
    var payload := S.Envelope(SpecFor(c).value, Some(signature));
    var first, rest := OnItsWay(c, id, payload), [Advance(id, false, false), Advance(id, false, false), Crash(id)];
    GetsOnItsWay(c, id, signature);
    var s := Run(Init(1, false), first);
    ConfirmingThenCrash(s, id, SignedAs(c, id, payload), payload);
    RunConcat(Init(1, false), first, rest);
    var run := first + rest;
    forall n ensures Run(Run(Init(1, false), run), Rounds(id, n)) == Run(Init(1, false), run) {
      RoundsChangeNothing(Run(Init(1, false), run), id, n);
    }
  }
}
