/** Every action of the protocol keeps its invariant. */
module ProtocolSteps {
  import opened Common
  import opened Commands
  import opened Operations
  import opened Protocol
  import opened ProtocolInvariant
  import S = SimulatedChain

  /** What a step may use of the record and the call it continues. */
  lemma Enter(s: Sys, id: string)
    requires Inv(s) && id in s.calls
    ensures RestOk(s, Some(id)) && CallOk(s, id, s.calls[id]) && StoredOk(s, id)
  {}

  lemma Except(s: Sys, id: string)
    requires Inv(s)
    ensures RestOk(s, Some(id))
  {}

  /** A receipt on the chain points at the submission it is for. */
  lemma ReceiptSent(s: Sys, h: S.TxHash)
    requires Inv(s) && h in s.chain.pending
    ensures SentAt(s.wire, s.chain.pending[h].ledger, h.payload)
  {}

  /** A signed record's payload is fit to be sent on its behalf. */
  lemma PayloadFit(s: Sys, id: string)
    requires id in s.ops && StoredOk(s, id) && s.ops[id].phase == Signed
    ensures s.ops[id].signed.Some? && SentOk(s, Sent(Some(id), s.ops[id].signed.value.payload))
  {}

  lemma Known(s: Sys, id: string)
    requires RestOk(s, Some(id)) && id in s.ops
    ensures StoredOk(s, id)
  {}

  lemma EnterIdle(s: Sys, id: string)
    requires Inv(s) && id in s.ops
    ensures RestOk(s, Some(id)) && StoredOk(s, id)
  {}

  // ----- prepare -----

  lemma NewOperationOk(c: Command, operationId: string, simulated: Option<S.ChainError>, needsRestore: bool)
    requires SpecFor(c).Ok?
    ensures PreparingOk(Creating(NewOperation(c, operationId, simulated, needsRestore)))
  {
    hide HashDocument, IsHex64;
  }

  function Created(s: Sys, op: Operation): Sys {
    s.(ops := s.ops[op.operationId := op], byKey := s.byKey[op.idempotencyKey := op.operationId])
  }

  lemma CreateKeepsRecord(s: Sys, op: Operation, id: string)
    requires PreparingOk(Creating(op)) && op.idempotencyKey !in s.byKey && op.operationId !in s.ops
    requires id == op.operationId || (id in s.ops && StoredOk(s, id))
    ensures StoredOk(Created(s, op), id)
  {}

  lemma CreateKeeps(s: Sys, op: Operation)
    requires Inv(s) && PreparingOk(Creating(op)) && op.idempotencyKey !in s.byKey && op.operationId !in s.ops
    ensures Inv(Created(s, op))
  {
    hide IntentOk, PhaseOk, LogOk, Evidence;
    var t := Created(s, op);
    forall id | id in t.ops ensures StoredOk(t, id) { CreateKeepsRecord(s, op, id); }
    forall key | key in t.byKey ensures KeyOk(t, key) { assert key != op.idempotencyKey ==> KeyOk(s, key); }
    forall sent | sent in t.wire ensures SentOk(t, sent) { assert SentOk(s, sent); }
    forall id | id in t.claimed ensures ClaimedOk(t, id) { assert ClaimedOk(s, id); }
    forall id | id in t.calls ensures CallOk(t, id, t.calls[id]) { OtherCall(s, t, id, s.calls[id]); }
  }

  lemma StepPrepareKeeps(s: Sys, a: Action)
    requires Inv(s) && (a.PrepareStart? || a.PrepareSimulate? || a.PrepareCreate? || a.PrepareAbandon?)
    ensures Inv(StepPrepare(s, a))
  {
    hide Inv, RestOk, IntentOk, PhaseOk, CanonicalKey, SubjectKey, ExpectedFor, NewOperation;
    var t := a.ticket;
    match a
    case PrepareStart(_, c) => PrepareOne(s, t, Simulating(c));
    case PrepareSimulate(_, id, needsRestore) =>
      if t in s.preparing && s.preparing[t].Simulating? && SpecFor(s.preparing[t].command).Ok? {
        var c := s.preparing[t].command;
        NewOperationOk(c, id, S.Validate(s.chain, SpecFor(c).value), needsRestore);
        PrepareOne(s, t, Creating(NewOperation(c, id, S.Validate(s.chain, SpecFor(c).value), needsRestore)));
      }
    case PrepareCreate(_) =>
      PrepareDone(s, t);
      if t in s.preparing && s.preparing[t].Creating? {
        var op := s.preparing[t].op;
        if op.idempotencyKey !in s.byKey && op.operationId !in s.ops {
          CreateKeeps(s.(preparing := s.preparing - {t}), op);
        }
      }
    case PrepareAbandon(_) => PrepareDone(s, t);
  }

  lemma PrepareOne(s: Sys, t: nat, p: Preparing)
    requires Inv(s) && PreparingOk(p)
    ensures Inv(s.(preparing := s.preparing[t := p]))
  {
    PreparingOnly(s, s.(preparing := s.preparing[t := p]));
  }

  lemma PrepareDone(s: Sys, t: nat)
    requires Inv(s)
    ensures Inv(s.(preparing := s.preparing - {t}))
    ensures t in s.preparing ==> PreparingOk(s.preparing[t])
  {
    PreparingOnly(s, s.(preparing := s.preparing - {t}));
  }

  lemma PreparingOnly(s: Sys, t: Sys)
    requires Inv(s) && t == s.(preparing := t.preparing) && forall k :: k in t.preparing ==> PreparingOk(t.preparing[k])
    ensures Inv(t)
  {
    Carry(s, t);
  }

  /** States that differ in clock, claimed copies or prepare calls only. */
  lemma Carry(s: Sys, t: Sys)
    requires Inv(s) && t.ops == s.ops && t.byKey == s.byKey && t.chain == s.chain && t.wire == s.wire
             && t.calls == s.calls
    requires t.maxAttempts == s.maxAttempts
    requires forall id :: id in t.claimed ==> ClaimedOk(t, id)
    requires forall k :: k in t.preparing ==> PreparingOk(t.preparing[k])
    ensures Inv(t)
  {
    forall id | id in t.ops ensures StoredOk(t, id) { assert StoredOk(s, id); }
    forall key | key in t.byKey ensures KeyOk(t, key) { assert KeyOk(s, key); }
    forall sent | sent in t.wire ensures SentOk(t, sent) { assert SentOk(s, sent); }
    forall id | id in t.calls ensures CallOk(t, id, t.calls[id]) {
      assert CallOk(s, id, s.calls[id]);
      OtherCall(s, t, id, s.calls[id]);
    }
  }

  // ----- starting a call -----

  function StartSubmitError(s: Sys, id: string, payload: S.Payload, signer: Address): ErrorCode
    requires id in s.ops
  {
    if s.ops[id].phase in {AwaitingSignature, Signed} then UnauthorizedPayload else InvalidTransition
  }

  lemma StartSubmitKeeps(s: Sys, id: string, payload: S.Payload, signer: Address, assembled: S.Payload, caller: Caller)
    requires RestOk(s, Some(id)) && id in s.ops && (caller == Worker ==> s.ops[id].phase != AwaitingSignature)
    ensures Inv(StartSubmit(s, id, payload, signer, assembled, caller))
  {
    hide Inv, RestOk, CanonicalKey, SubjectKey, SpecFor, ExpectedFor;
    var op := s.ops[id];
    Known(s, id);
    if op.phase == Signed && op.signed == Some(SignedPayload(payload, signer)) {
      Wait(s, id, caller, Submitting(op, true));
    } else if op.phase == AwaitingSignature && signer == op.actorAddress
      && FinalPayload(s, op, payload, signer, assembled).Some? {
      var final := FinalPayload(s, op, payload, signer, assembled).value;
      var signed := op.(signed := Some(SignedPayload(final, signer)), phase := Signed);
      assert WriteOk(s, id, signed);
      Wait(s, id, caller, SaveSigned(signed));
    } else {
      Throw(s, id, caller, StartSubmitError(s, id, payload, signer));
    }
  }

  lemma StartPollKeeps(s: Sys, id: string, caller: Caller)
    requires RestOk(s, Some(id)) && id in s.ops && (caller == Worker ==> s.ops[id].phase != AwaitingSignature)
    requires !IsTerminal(s.ops[id].phase)
    ensures Inv(StartPoll(s, s.ops[id], caller))
  {
    hide Inv, RestOk, CanonicalKey, SubjectKey, SpecFor, ExpectedFor;
    var op := s.ops[id];
    Known(s, id);
    if op.txHash.None? {
      Throw(s, id, caller, InvalidTransition);
    } else if !MayMove(op.phase, Confirming) {
      Throw(s, id, caller, InvalidTransition);
    } else {
      assert WriteOk(s, id, op.(phase := Confirming));
      Wait(s, id, caller, SaveConfirming(op.(phase := Confirming)));
    }
  }

  lemma ClaimedOnly(s: Sys, t: Sys)
    requires Inv(s) && t == s.(claimed := t.claimed)
    requires forall id :: id in t.claimed ==> ClaimedOk(s, id)
    ensures Inv(t)
  {
    Carry(s, t);
  }

  lemma ForgetKeeps(s: Sys, copy: Copy)
    requires Inv(s)
    ensures Inv(s.(claimed := s.claimed - {copy}))
  {
    ClaimedOnly(s, s.(claimed := s.claimed - {copy}));
  }

  lemma ClaimKeeps(s: Sys, id: string, w: string)
    requires Inv(s) && id in s.ops && s.ops[id].phase != AwaitingSignature
    ensures Inv(s.(claimed := s.claimed[Copy(w, id) := s.ops[id]]))
  {
    ClaimedOnly(s, s.(claimed := s.claimed[Copy(w, id) := s.ops[id]]));
  }

  lemma ProcessKeeps(s: Sys, id: string, w: string)
    requires Inv(s) && Copy(w, id) in s.claimed && id in s.ops && id !in s.calls && s.ops[id].operationId == id
    ensures Inv(StepStart(s, WorkerProcess(id, w)))
  {
    hide Inv, RestOk, IntentOk, PhaseOk, ConfirmedOk;
    var copy, t := s.claimed[Copy(w, id)], s.(claimed := s.claimed - {Copy(w, id)});
    ForgetKeeps(s, Copy(w, id));
    ClaimedCopy(s, Copy(w, id));
    EnterIdle(t, id);
    if copy.phase != Signed {
      if Reconcilable(t.ops[id].phase) { StartPollKeeps(t, id, Worker); }
    } else if copy.signed.None? {
      Throw(t, id, Worker, InvalidTransition);
    } else {
      StartSubmitKeeps(t, id, copy.signed.value.payload, copy.signed.value.signer, copy.signed.value.payload, Worker);
    }
  }

  lemma MissKeeps(s: Sys, id: string, w: string, code: ErrorCode)
    requires Inv(s) && Copy(w, id) in s.claimed && id in s.ops && id !in s.calls && s.ops[id].operationId == id
    ensures Inv(StepStart(s, WorkerMisses(id, w, code)))
  {
    hide Inv, RestOk;
    var t := s.(claimed := s.claimed - {Copy(w, id)});
    ForgetKeeps(s, Copy(w, id));
    ClaimedCopy(s, Copy(w, id));
    EnterIdle(t, id);
    Throw(t, id, Worker, code);
  }

  lemma ClaimedCopy(s: Sys, copy: Copy)
    requires Inv(s) && copy in s.claimed
    ensures ClaimedOk(s, copy)
  {}

  lemma StepStartKeeps(s: Sys, a: Action)
    requires Inv(s) && Starts(a)
    ensures Inv(StepStart(s, a))
  {
    hide Inv, RestOk, IntentOk, PhaseOk, ConfirmedOk;
    var id := a.operationId;
    if a.WorkerForgets? {
      ForgetKeeps(s, Copy(a.workerId, id));
    } else if id in s.ops && s.ops[id].operationId == id && id !in s.calls {
      EnterIdle(s, id);
      match a
      case SubmitSigned(_, payload, signer, assembled) => StartSubmitKeeps(s, id, payload, signer, assembled, Api);
      case Reconcile(_) => if Reconcilable(s.ops[id].phase) { StartPollKeeps(s, id, Api); }
      case Claim(_, w) => if Actionable(s, s.ops[id]) { ClaimKeeps(s, id, w); }
      case WorkerMisses(_, w, code) => if Copy(w, id) in s.claimed { MissKeeps(s, id, w, code); }
      case WorkerProcess(_, w) => if Copy(w, id) in s.claimed { ProcessKeeps(s, id, w); }
    }
  }

  // ----- advancing a call -----

  /** Readback of an operation that kept its intent proves the fact field by field. */
  lemma ReadbackProves(chain: S.Chain, op: Operation)
    requires IntentOk(op) && op.prepared.Some? && op.ledger.Some? && ReadbackMatches(chain, op)
    ensures OnChain(chain, op)
  {}

  lemma AdvanceSaveSignedKeeps(s: Sys, id: string)
    requires Inv(s) && id in s.calls && s.calls[id].frame.SaveSigned?
    ensures Inv(AdvanceCall(s, id, false, false))
  {
    hide Inv, RestOk, CanonicalKey, SubjectKey, SpecFor, ExpectedFor;
    var c := s.calls[id];
    Enter(s, id);
    SaveKeeps(s, id, c.frame.op);
    Wait(Save(s, c.frame.op), id, c.caller, Submitting(c.frame.op, false));
  }

  lemma AdvanceSubmittingKeeps(s: Sys, id: string, staysPending: bool)
    requires Inv(s) && id in s.calls && s.calls[id].frame.Submitting?
    ensures Inv(AdvanceCall(s, id, staysPending, false))
  {
    hide Inv, RestOk, CanonicalKey, SubjectKey, SpecFor, ExpectedFor;
    var c := s.calls[id];
    Enter(s, id);
    var op := c.frame.op;
    var payload := op.signed.value.payload;
    var submitted := op.(txHash := Some(S.Sha256(payload)), phase := Submitted);
    SubmissionKeeps(s, Sent(Some(id), payload), staysPending, Some(id));
    var t := Transmit(s, id, payload, staysPending);
    assert WriteOk(t, id, submitted);
    Wait(t, id, c.caller, SaveSubmitted(submitted, c.frame.recovery));
  }

  lemma AdvancePollingKeeps(s: Sys, id: string, nullLedger: bool)
    requires Inv(s) && id in s.calls && s.calls[id].frame.Polling?
    ensures Inv(AdvanceCall(s, id, false, nullLedger))
  {
    hide Inv, RestOk, CanonicalKey, SubjectKey, SpecFor, ExpectedFor;
    var c := s.calls[id];
    Enter(s, id);
    var op := c.frame.op;
    var next := AfterPoll(op, S.Poll(s.chain, op.txHash.value, nullLedger), s.now);
    if next.phase == Confirming {
      ReceiptSent(s, op.txHash.value);
      Wait(s, id, c.caller, ReadingBack(next));
    } else {
      assert WriteOk(s, id, next);
      Wait(s, id, c.caller, SaveOutcome(next));
    }
  }

  lemma AdvanceReadingBackKeeps(s: Sys, id: string)
    requires Inv(s) && id in s.calls && s.calls[id].frame.ReadingBack?
    ensures Inv(AdvanceCall(s, id, false, false))
  {
    hide Inv, RestOk, CanonicalKey, SubjectKey, SpecFor, ExpectedFor;
    var c := s.calls[id];
    Enter(s, id);
    var op := c.frame.op;
    var ok := ReadbackMatches(s.chain, op);
    var next := AfterReadback(op, ok);
    assert IntentOk(op);
    if ok {
      ReadbackProves(s.chain, op);
      assert Evidence(s.chain, s.wire, next);
    }
    assert WriteOk(s, id, next);
    Wait(s, id, c.caller, SaveOutcome(next));
  }

  lemma AdvanceHandlerReadKeeps(s: Sys, id: string)
    requires Inv(s) && id in s.calls && s.calls[id].frame.HandlerRead?
    ensures Inv(AdvanceCall(s, id, false, false))
  {
    hide Inv, RestOk, CanonicalKey, SubjectKey, SpecFor, ExpectedFor;
    var c := s.calls[id];
    Enter(s, id);
    var write := AfterWorkerError(s.ops[id], c.frame.code, s.now, s.maxAttempts);
    if write.None? {
      Leave(s, id);
    } else {
      assert WriteOk(s, id, write.value);
      Wait(s, id, c.caller, HandlerSave(write.value));
    }
  }

  lemma AdvanceKeeps(s: Sys, id: string, staysPending: bool, nullLedger: bool)
    requires Inv(s) && id in s.calls
    ensures Inv(AdvanceCall(s, id, staysPending, nullLedger))
  {
    hide Inv, RestOk, IntentOk, PhaseOk, ConfirmedOk;
    var c := s.calls[id];
    Enter(s, id);
    match c.frame
    case SaveSigned(op) => AdvanceSaveSignedKeeps(s, id);
    case Submitting(op, _) => AdvanceSubmittingKeeps(s, id, staysPending);
    case SaveSubmitted(op, _) =>
      SaveKeeps(s, id, op);
      StartPollKeeps(Save(s, op), id, c.caller);
    case SaveConfirming(op) =>
      SaveKeeps(s, id, op);
      Wait(Save(s, op), id, c.caller, Polling(op));
    case Polling(op) => AdvancePollingKeeps(s, id, nullLedger);
    case ReadingBack(op) => AdvanceReadingBackKeeps(s, id);
    case SaveOutcome(op) =>
      SaveKeeps(s, id, op);
      Leave(Save(s, op), id);
    case SaveRetry(op) =>
      SaveKeeps(s, id, op);
      Throw(Save(s, op), id, c.caller, SubmissionFailed);
    case HandlerRead(_) => AdvanceHandlerReadKeeps(s, id);
    case HandlerSave(op) =>
      SaveKeeps(s, id, op);
      Leave(Save(s, op), id);
  }

  // ----- failing a call -----

  lemma RetryKeeps(s: Sys, id: string, op: Operation, code: ErrorCode)
    requires RestOk(s, Some(id)) && id in s.calls && id in s.ops
             && (s.calls[id].caller == Worker ==> s.ops[id].phase != AwaitingSignature)
    requires WriteOk(s, id, op) || (op == s.ops[id] && op.phase == Signed)
    requires !IsTerminal(op.phase)
    ensures Inv(At(s, id, s.calls[id].caller, SaveRetry(ScheduleRetry(op, s.now).(errorCode := Some(code)))))
  {
    hide Inv, RestOk, CanonicalKey, SubjectKey, SpecFor, ExpectedFor;
    Known(s, id);
    var retry := ScheduleRetry(op, s.now).(errorCode := Some(code));
    assert WriteOk(s, id, retry);
    Wait(s, id, s.calls[id].caller, SaveRetry(retry));
  }

  lemma FailKeeps(s: Sys, id: string, code: ErrorCode, reached: bool)
    requires Inv(s) && id in s.calls
    ensures Inv(FailCall(s, id, code, reached))
  {
    hide Inv, RestOk, IntentOk, PhaseOk, ConfirmedOk;
    var c := s.calls[id];
    Enter(s, id);
    match c.frame
    case Submitting(op, _) =>
      PayloadFit(s, id);
      if reached {
        SubmissionKeeps(s, Sent(Some(id), op.signed.value.payload), false, Some(id));
        RetryKeeps(Transmit(s, id, op.signed.value.payload, false), id, op, code);
      } else {
        RetryKeeps(s, id, op, code);
      }
    case SaveSubmitted(op, recovery) =>
      if recovery { RetryKeeps(s, id, op, code); } else { Throw(s, id, c.caller, code); }
    case HandlerRead(_) => Leave(s, id);
    case HandlerSave(_) => Leave(s, id);
    case _ => Throw(s, id, c.caller, code);
  }

  // ----- every action -----

  lemma StepKeeps(s: Sys, a: Action)
    requires Inv(s)
    ensures Inv(Step(s, a))
  {
    hide Inv, RestOk, IntentOk, PhaseOk, ConfirmedOk;
    match a
    case Tick(_) => TickKeeps(s, Step(s, a));
    case PrepareStart(_, _) => StepPrepareKeeps(s, a);
    case PrepareSimulate(_, _, _) => StepPrepareKeeps(s, a);
    case PrepareCreate(_) => StepPrepareKeeps(s, a);
    case PrepareAbandon(_) => StepPrepareKeeps(s, a);
    case Advance(id, staysPending, nullLedger) =>
      if id in s.calls { AdvanceKeeps(s, id, staysPending, nullLedger); }
    case Fail(id, code, reached) =>
      if id in s.calls { FailKeeps(s, id, code, reached); }
    case Crash(id) =>
      Except(s, id);
      Leave(s, id);
    case Foreign(payload, staysPending) =>
      if S.Signed(payload) { ForeignKeeps(s, payload, staysPending); }
    case _ => StepStartKeeps(s, a);
  }

  lemma ForeignKeeps(s: Sys, payload: S.Payload, staysPending: bool)
    requires Inv(s) && S.Signed(payload)
    ensures Inv(s.(chain := S.Submit(s.chain, payload, staysPending).0, wire := s.wire + [Sent(None, payload)]))
  {
    SubmissionKeeps(s, Sent(None, payload), staysPending, None);
  }

  lemma TickKeeps(s: Sys, t: Sys)
    requires Inv(s) && t == s.(now := t.now)
    ensures Inv(t)
  {
    forall id | id in t.claimed ensures ClaimedOk(t, id) { assert ClaimedOk(s, id); }
    Carry(s, t);
  }

  lemma {:induction false} RunKeeps(s: Sys, actions: seq<Action>)
    requires Inv(s)
    ensures Inv(Run(s, actions))
    decreases |actions|
  {
    if actions != [] {
      StepKeeps(s, actions[0]);
      RunKeeps(Step(s, actions[0]), actions[1..]);
    }
  }
}
