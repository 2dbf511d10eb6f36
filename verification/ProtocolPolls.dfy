/** What polling the network makes of an operation: by the receipt of its hash, and never worse without cause. */
module ProtocolPolls {
  import opened Common
  import opened Commands
  import opened Operations
  import opened Protocol
  import opened ProtocolInvariant
  import opened ProtocolSteps
  import opened ProtocolSafety
  import opened ProtocolOutcomes
  import opened ProtocolRecovery
  import S = SimulatedChain

  // ----- one poll -----

  /** The poll, the readback if there is one, and the save, with nothing in between. */
  function Settled(s: Sys, id: string, nullLedger: bool): Sys {
    Next(Next(Step(s, Advance(id, false, nullLedger)), id), id)
  }

  lemma OutcomeIsSaved(s: Sys, id: string, op: Operation)
    requires id in s.calls && id in s.ops && s.calls[id].frame == SaveOutcome(op) && op.operationId == id
    ensures var t := Next(s, id);
            id !in t.calls && t.ops == s.ops[id := op] && t.chain == s.chain && Next(t, id) == t
  {}

  lemma ReadsBack(s: Sys, id: string, op: Operation)
    requires id in s.calls && s.calls[id].frame == ReadingBack(op)
    ensures var t := Next(s, id);
            && id in t.calls && t.calls[id].frame == SaveOutcome(AfterReadback(op, ReadbackMatches(s.chain, op)))
            && t.ops == s.ops && t.chain == s.chain
  {
    hide ReadbackMatches, S.Submit, S.Poll;
  }

  lemma PollAnswers(s: Sys, id: string, op: Operation, nullLedger: bool)
    requires id in s.calls && s.calls[id].frame == Polling(op) && op.txHash.Some?
    ensures var t := Step(s, Advance(id, false, nullLedger));
            var next := AfterPoll(op, S.Poll(s.chain, op.txHash.value, nullLedger), s.now);
            && id in t.calls
            && t.calls[id].frame == (if next.phase == Confirming then ReadingBack(next) else SaveOutcome(next))
            && t.ops == s.ops && t.chain == s.chain
  {
    hide AfterPoll, S.Poll, S.Submit, ReadbackMatches;
  }

  /**
   * Of a polling call, the receipt of its hash decides: none, a pending one or a success without a ledger leaves the
   * record unknown, one attempt further, with the same hash and a wait; a failed one, or a success that does not read
   * back, has failed for good; a success that reads back is confirmed.
   */
  lemma PollSettles(s: Sys, id: string, nullLedger: bool)
    requires Inv(s) && id in s.calls && s.calls[id].frame.Polling?
    ensures id in s.ops && s.ops[id].txHash.Some?
    ensures var op, t := s.ops[id], Settled(s, id, nullLedger);
            && id !in t.calls && id in t.ops && t.ops == s.ops[id := t.ops[id]]
            && Settles(op, ReceiptOf(s.chain, op.txHash.value), nullLedger, s.chain, s.now, t.ops[id])
  {
    hide Inv, RestOk, IntentOk, ConfirmedOk, LogOk, S.Poll, ReadbackMatches, AfterPoll, Step, Settles;
    Enter(s, id);
    var op := s.ops[id];
    PollAnswers(s, id, op, nullLedger);
    var t := Step(s, Advance(id, false, nullLedger));
    var next := AfterPoll(op, S.Poll(s.chain, op.txHash.value, nullLedger), s.now);
    if next.phase == Confirming {
      var ok := ReadbackMatches(s.chain, next);
      ReadsBack(t, id, next);
      ReceiptDecides(op, s.chain, nullLedger, s.now);
      OutcomeIsSaved(Next(t, id), id, AfterReadback(next, ok));
    } else {
      ReceiptDecides(op, s.chain, nullLedger, s.now);
      OutcomeIsSaved(t, id, next);
    }
  }

  lemma ReceiptDecides(op: Operation, chain: S.Chain, nullLedger: bool, now: nat)
    requires op.txHash.Some? && op.phase == Confirming
    ensures var next := AfterPoll(op, S.Poll(chain, op.txHash.value, nullLedger), now);
            var final := if next.phase == Confirming then AfterReadback(next, ReadbackMatches(chain, next)) else next;
            Settles(op, ReceiptOf(chain, op.txHash.value), nullLedger, chain, now, final)
            && next.operationId == op.operationId && final.operationId == op.operationId
  {
    hide ReadbackMatches, BackoffMs;
  }

  /** Reconciling an idle record that was submitted, and is not stuck, polls it; its receipt decides as above. */
  lemma ReconcileSettles(s: Sys, id: string, nullLedger: bool)
    requires Inv(s) && id in s.ops && id !in s.calls && s.ops[id].phase in {Submitted, Confirming, Unknown}
    ensures s.ops[id].txHash.Some?
    ensures var op := s.ops[id].(phase := Confirming);
            var t := Settled(Next(Step(s, Reconcile(id)), id), id, nullLedger);
            && id !in t.calls && id in t.ops && t.ops == s.ops[id := t.ops[id]]
            && Settles(op, ReceiptOf(s.chain, op.txHash.value), nullLedger, s.chain, s.now, t.ops[id])
  {
    hide Inv, RestOk, IntentOk, ConfirmedOk, LogOk, Settles, Settled;
    EnterIdle(s, id);
    var op := s.ops[id].(phase := Confirming);
    Polls(s, id);
    var t := Next(Step(s, Reconcile(id)), id);
    StepKeeps(s, Reconcile(id));
    StepKeeps(Step(s, Reconcile(id)), Advance(id, false, false));
    PollSettles(t, id, nullLedger);
  }

  lemma Polls(s: Sys, id: string)
    requires id in s.ops && id !in s.calls && s.ops[id].operationId == id
    requires s.ops[id].phase in {Submitted, Confirming, Unknown} && s.ops[id].txHash.Some?
    ensures var op, t := s.ops[id].(phase := Confirming), Next(Step(s, Reconcile(id)), id);
            && id in t.calls && t.calls[id].frame == Polling(op) && t.ops == s.ops[id := op]
            && t.chain == s.chain && t.now == s.now
  {
    hide S.Submit, S.Poll;
    var op := s.ops[id].(phase := Confirming);
    assert Step(s, Reconcile(id)) == At(s, id, Api, SaveConfirming(op));
  }

  // ----- no failure for good without cause -----

  /** A call finds that its transaction failed, or that what it wrote does not read back. */
  ghost predicate FindsFailure(s: Sys, id: string) {
    && id in s.calls
    && match s.calls[id].frame
       case Polling(op) =>
         op.txHash.Some? && op.txHash.value in s.chain.pending && s.chain.pending[op.txHash.value].status == S.Failed
       case ReadingBack(op) => op.ledger.Some? && !ReadbackMatches(s.chain, op)
       case _ => false
  }

  /** Failed for good, and not because the worker gave up. */
  predicate Condemned(op: Operation) {
    op.phase == FailedTerminal && op.errorCode != Some(MaxAttemptsExceeded)
  }

  /** The record, or what its call is about to save over it, is condemned only if `found`. */
  ghost predicate OnlyIf(s: Sys, id: string, found: bool) {
    && (id in s.ops && Condemned(s.ops[id]) && s.ops[id].txHash.Some? ==> found)
    && (id in s.calls && Saving(s.calls[id].frame) && Condemned(s.calls[id].frame.op) ==> found)
  }

  ghost predicate RecordOnlyIf(s: Sys, id: string, found: bool) {
    id in s.ops && Condemned(s.ops[id]) && s.ops[id].txHash.Some? ==> found
  }

  ghost predicate FrameOnlyIf(f: Frame, found: bool) {
    Saving(f) && Condemned(f.op) ==> found
  }

  lemma Put(s: Sys, id: string, caller: Caller, f: Frame, found: bool)
    requires RecordOnlyIf(s, id, found) && FrameOnlyIf(f, found)
    ensures OnlyIf(At(s, id, caller, f), id, found)
  {}

  lemma Gone(s: Sys, id: string, caller: Caller, code: ErrorCode, found: bool)
    requires RecordOnlyIf(s, id, found)
    ensures OnlyIf(Returns(s, id), id, found) && OnlyIf(Throws(s, id, caller, code), id, found)
  {}

  lemma Written(s: Sys, id: string, op: Operation, found: bool)
    requires RecordOnlyIf(s, id, found) && op.operationId == id && (Condemned(op) ==> found)
    ensures RecordOnlyIf(Save(s, op), id, found)
  {}

  lemma PollsOnlyIf(s: Sys, id: string, op: Operation, caller: Caller, found: bool)
    requires RecordOnlyIf(s, id, found) && op.operationId == id
    ensures OnlyIf(StartPoll(s, op, caller), id, found)
  {
    hide RecordOnlyIf, OnlyIf, MayMove, Throws, At;
    Gone(s, id, caller, InvalidTransition, found);
    Put(s, id, caller, SaveConfirming(op.(phase := Confirming)), found);
  }

  lemma PartsOf(s: Sys, id: string, found: bool)
    requires OnlyIf(s, id, found)
    ensures RecordOnlyIf(s, id, found) && (id in s.calls ==> FrameOnlyIf(s.calls[id].frame, found))
  {}

  /** What the invariant says of the phase a call is in. */
  lemma PhaseOfFrame(s: Sys, id: string)
    requires Inv(s) && id in s.calls
    ensures var f := s.calls[id].frame;
            && id in s.ops && (!f.HandlerRead? ==> f.op.operationId == id)
            && (f.Submitting? ==> f.op.phase == Signed) && (f.SaveSubmitted? ==> f.op.phase == Submitted)
  {
    hide RestOk, IntentOk, PhaseOk, ConfirmedOk, Evolves, Inv;
    Enter(s, id);
  }

  lemma PollFinds(op: Operation, s: Sys, id: string, nullLedger: bool)
    requires id in s.calls && s.calls[id].frame == Polling(op) && op.txHash.Some?
    ensures var next := AfterPoll(op, S.Poll(s.chain, op.txHash.value, nullLedger), s.now);
            FrameOnlyIf(if next.phase == Confirming then ReadingBack(next) else SaveOutcome(next), FindsFailure(s, id))
  {
    hide BackoffMs;
  }

  lemma ReadbackFinds(op: Operation, s: Sys, id: string)
    requires id in s.calls && s.calls[id].frame == ReadingBack(op) && op.ledger.Some?
    ensures FrameOnlyIf(SaveOutcome(AfterReadback(op, ReadbackMatches(s.chain, op))), FindsFailure(s, id))
  {
    hide ReadbackMatches;
  }

  lemma LedgerWasRead(s: Sys, id: string)
    requires Inv(s) && id in s.calls && s.calls[id].frame.ReadingBack?
    ensures s.calls[id].frame.op.ledger.Some?
  {
    hide RestOk, IntentOk, PhaseOk, ConfirmedOk, Evolves, Inv;
    Enter(s, id);
  }

  lemma HandlerGivesUpOnly(s: Sys, id: string, code: ErrorCode, found: bool)
    requires RecordOnlyIf(s, id, found) && id in s.calls && s.calls[id].frame == HandlerRead(code)
    ensures OnlyIf(AdvanceCall(s, id, false, false), id, found)
  {
    hide BackoffMs;
  }

  lemma AdvanceOnlyIf(s: Sys, id: string, staysPending: bool, nullLedger: bool, found: bool)
    requires Inv(s) && id in s.calls && OnlyIf(s, id, found)
    ensures OnlyIf(AdvanceCall(s, id, staysPending, nullLedger), id, found || FindsFailure(s, id))
  {
    hide Inv, OnlyIf, RecordOnlyIf, FindsFailure, StartPoll, Throws, Returns, Save, Transmit, At, AfterPoll, S.Poll,
         ReadbackMatches, AfterWorkerError, S.Signed;
    var more, c := found || FindsFailure(s, id), s.calls[id];
    WeakenOnlyIf(s, id, found, more);
    PartsOf(s, id, more);
    PhaseOfFrame(s, id);
    match c.frame
    case SaveSigned(op) =>
      Written(s, id, op, more);
      Put(Save(s, op), id, c.caller, Submitting(op, false), more);
    case Submitting(op, recovery) =>
      if op.signed.Some? && S.Signed(op.signed.value.payload) {
        var payload := op.signed.value.payload;
        SentOnlyIf(s, id, payload, staysPending, more);
        Put(Transmit(s, id, payload, staysPending), id, c.caller,
            SaveSubmitted(op.(txHash := Some(S.Sha256(payload)), phase := Submitted), recovery), more);
      }
    case SaveSubmitted(op, _) =>
      Written(s, id, op, more);
      PollsOnlyIf(Save(s, op), id, op, c.caller, more);
    case SaveConfirming(op) =>
      Written(s, id, op, more);
      Put(Save(s, op), id, c.caller, Polling(op), more);
    case Polling(op) =>
      if op.txHash.Some? {
        var next := AfterPoll(op, S.Poll(s.chain, op.txHash.value, nullLedger), s.now);
        PollFinds(op, s, id, nullLedger);
        Put(s, id, c.caller, if next.phase == Confirming then ReadingBack(next) else SaveOutcome(next), more);
      }
    case ReadingBack(op) =>
      LedgerWasRead(s, id);
      ReadbackFinds(op, s, id);
      Put(s, id, c.caller, SaveOutcome(AfterReadback(op, ReadbackMatches(s.chain, op))), more);
    case SaveOutcome(op) =>
      Written(s, id, op, more);
      Gone(Save(s, op), id, c.caller, SubmissionFailed, more);
    case SaveRetry(op) =>
      Written(s, id, op, more);
      Gone(Save(s, op), id, c.caller, SubmissionFailed, more);
    case HandlerRead(code) => HandlerGivesUpOnly(s, id, code, more);
    case HandlerSave(op) =>
      Written(s, id, op, more);
      Gone(Save(s, op), id, c.caller, SubmissionFailed, more);
  }

  lemma SentOnlyIf(s: Sys, id: string, payload: S.Payload, staysPending: bool, found: bool)
    requires RecordOnlyIf(s, id, found)
    ensures RecordOnlyIf(Transmit(s, id, payload, staysPending), id, found)
  {
    hide S.Submit;
  }

  lemma FailOnlyIf(s: Sys, id: string, code: ErrorCode, reached: bool, found: bool)
    requires Inv(s) && id in s.calls && OnlyIf(s, id, found)
    ensures OnlyIf(FailCall(s, id, code, reached), id, found)
  {
    hide Inv, OnlyIf, RecordOnlyIf, Throws, Returns, Transmit, At, S.Signed, BackoffMs;
    var c := s.calls[id];
    PartsOf(s, id, found);
    PhaseOfFrame(s, id);
    Gone(s, id, c.caller, code, found);
    match c.frame
    case Submitting(op, _) =>
      var retry := SaveRetry(ScheduleRetry(op, s.now).(errorCode := Some(code)));
      Put(s, id, c.caller, retry, found);
      if reached && op.signed.Some? && S.Signed(op.signed.value.payload) {
        SentOnlyIf(s, id, op.signed.value.payload, false, found);
        Put(Transmit(s, id, op.signed.value.payload, false), id, c.caller, retry, found);
      }
    case SaveSubmitted(op, _) =>
      Put(s, id, c.caller, SaveRetry(ScheduleRetry(op, s.now).(errorCode := Some(code))), found);
    case _ =>
  }

  lemma SubmitOnlyIf(s: Sys, id: string, payload: S.Payload, signer: Address, assembled: S.Payload, caller: Caller,
                     found: bool)
    requires RecordOnlyIf(s, id, found) && id in s.ops
    ensures OnlyIf(StartSubmit(s, id, payload, signer, assembled, caller), id, found)
  {
    hide RecordOnlyIf, OnlyIf, Throws, At, FinalPayload;
    Gone(s, id, caller, UnauthorizedPayload, found);
    Gone(s, id, caller, InvalidTransition, found);
    var op := s.ops[id];
    Put(s, id, caller, Submitting(op, true), found);
    var final := FinalPayload(s, op, payload, signer, assembled);
    if final.Some? {
      Put(s, id, caller, SaveSigned(op.(signed := Some(SignedPayload(final.value, signer)), phase := Signed)), found);
    }
  }

  lemma StartOnlyIf(s: Sys, a: Action, id: string, found: bool)
    requires Starts(a) && OnlyIf(s, id, found)
    ensures OnlyIf(StepStart(s, a), id, found)
  {
    hide OnlyIf, RecordOnlyIf, StartSubmit, StartPoll, Throws, Actionable, Untouched;
    PartsOf(s, id, found);
    if a.operationId != id {
      StartElsewhere(s, a, id);
      StartOps(s, a);
      UntouchedOnlyIf(s, StepStart(s, a), id, found);
    } else {
      if !a.WorkerForgets? && id in s.ops && s.ops[id].operationId == id && id !in s.calls {
        match a
        case SubmitSigned(_, payload, signer, assembled) => SubmitOnlyIf(s, id, payload, signer, assembled, Api, found);
        case Reconcile(_) => PollsOnlyIf(s, id, s.ops[id], Api, found);
        case Claim(_, _) => ElsewhereOnlyIf(s, StepStart(s, a), id, found);
        case WorkerMisses(_, w, code) =>
          if Copy(w, id) in s.claimed { TakenOnlyIf(s, id, w, code, found); }
        case WorkerProcess(_, w) => if Copy(w, id) in s.claimed { TakenOnlyIf(s, id, w, InvalidTransition, found); }
      } else {
        ElsewhereOnlyIf(s, StepStart(s, a), id, found);
      }
    }
  }

  /** What a worker that has taken its copy starts. */
  lemma TakenOnlyIf(s: Sys, id: string, w: string, code: ErrorCode, found: bool)
    requires OnlyIf(s, id, found) && id in s.ops && s.ops[id].operationId == id && id !in s.calls
             && Copy(w, id) in s.claimed
    ensures OnlyIf(StepStart(s, WorkerProcess(id, w)), id, found)
            && OnlyIf(StepStart(s, WorkerMisses(id, w, code)), id, found)
  {
    hide OnlyIf, RecordOnlyIf, StartSubmit, StartPoll, Throws;
    var t, copy := s.(claimed := s.claimed - {Copy(w, id)}), s.claimed[Copy(w, id)];
    ElsewhereOnlyIf(s, t, id, found);
    PartsOf(t, id, found);
    Gone(t, id, Worker, code, found);
    Gone(t, id, Worker, InvalidTransition, found);
    PollsOnlyIf(t, id, t.ops[id], Worker, found);
    if copy.signed.Some? {
      SubmitOnlyIf(t, id, copy.signed.value.payload, copy.signed.value.signer, copy.signed.value.payload, Worker,
                   found);
    }
  }

  lemma UntouchedOnlyIf(s: Sys, t: Sys, id: string, found: bool)
    requires OnlyIf(s, id, found) && Untouched(s, t, id) && t.ops == s.ops
    ensures OnlyIf(t, id, found)
  {}

  lemma PrepareOnlyIf(s: Sys, a: Action, id: string, found: bool)
    requires Inv(s) && OnlyIf(s, id, found)
    requires a.PrepareStart? || a.PrepareSimulate? || a.PrepareCreate? || a.PrepareAbandon?
    ensures OnlyIf(StepPrepare(s, a), id, found)
  {
    hide LogOk, IntentOk, PhaseOk, ConfirmedOk, LookUp, SpecFor, NewOperation, S.Validate;
    assert forall t :: t in s.preparing ==> PreparingOk(s.preparing[t]);
  }

  lemma ElsewhereOnlyIf(s: Sys, t: Sys, id: string, found: bool)
    requires OnlyIf(s, id, found)
    requires id in t.ops ==> id in s.ops && t.ops[id] == s.ops[id]
    requires id in t.calls ==> id in s.calls && t.calls[id] == s.calls[id]
    ensures OnlyIf(t, id, found)
  {}

  lemma StepOnlyIf(s: Sys, a: Action, id: string, found: bool)
    requires Inv(s) && OnlyIf(s, id, found)
    ensures OnlyIf(Step(s, a), id, found || FindsFailure(s, id))
  {
    hide Inv, OnlyIf, StepPrepare, StepStart, AdvanceCall, FailCall, S.Submit, FindsFailure;
    WeakenOnlyIf(s, id, found, found || FindsFailure(s, id));
    var found' := found || FindsFailure(s, id);
    match a
    case Advance(other, staysPending, nullLedger) =>
      if other in s.calls {
        if other == id { AdvanceOnlyIf(s, id, staysPending, nullLedger, found); }
        else { AdvanceOtherOnlyIf(s, other, staysPending, nullLedger, id, found'); }
      }
    case Fail(other, code, reached) =>
      if other in s.calls {
        if other == id { FailOnlyIf(s, id, code, reached, found'); }
        else { FailOtherOnlyIf(s, other, code, reached, id, found'); }
      }
    case Tick(_) => ElsewhereOnlyIf(s, Step(s, a), id, found');
    case Crash(_) => ElsewhereOnlyIf(s, Step(s, a), id, found');
    case Foreign(_, _) => ElsewhereOnlyIf(s, Step(s, a), id, found');
    case PrepareStart(_, _) => PrepareOnlyIf(s, a, id, found');
    case PrepareSimulate(_, _, _) => PrepareOnlyIf(s, a, id, found');
    case PrepareCreate(_) => PrepareOnlyIf(s, a, id, found');
    case PrepareAbandon(_) => PrepareOnlyIf(s, a, id, found');
    case _ => StartOnlyIf(s, a, id, found');
  }

  lemma WeakenOnlyIf(s: Sys, id: string, found: bool, more: bool)
    requires OnlyIf(s, id, found) && (found ==> more)
    ensures OnlyIf(s, id, more)
  {}

  lemma AdvanceOtherOnlyIf(s: Sys, other: string, staysPending: bool, nullLedger: bool, id: string, found: bool)
    requires Inv(s) && other in s.calls && other != id && OnlyIf(s, id, found)
    ensures OnlyIf(AdvanceCall(s, other, staysPending, nullLedger), id, found)
  {
    hide Inv, OnlyIf, AdvanceCall, S.Submit;
    OwnRecord(s, other);
    AdvanceOps(s, other, staysPending, nullLedger);
    AdvanceFromBasis(s, other, staysPending, nullLedger, id);
    BasisCalls(s, other, staysPending);
    ElsewhereOnlyIf(s, AdvanceCall(s, other, staysPending, nullLedger), id, found);
  }

  lemma BasisCalls(s: Sys, other: string, staysPending: bool)
    requires other in s.calls
    ensures Basis(s, other, staysPending).calls == s.calls
  {
    hide S.Submit;
  }

  lemma FailOtherOnlyIf(s: Sys, other: string, code: ErrorCode, reached: bool, id: string, found: bool)
    requires Inv(s) && other in s.calls && other != id && OnlyIf(s, id, found)
    ensures OnlyIf(FailCall(s, other, code, reached), id, found)
  {
    hide Inv, OnlyIf, FailCall;
    FailOps(s, other, code, reached);
    FailLeavesOthers(s, other, code, reached, id);
    ElsewhereOnlyIf(s, FailCall(s, other, code, reached), id, found);
  }

  lemma FailLeavesOthers(s: Sys, other: string, code: ErrorCode, reached: bool, id: string)
    requires other in s.calls && other != id
    ensures var t := FailCall(s, other, code, reached); id in t.calls ==> id in s.calls && t.calls[id] == s.calls[id]
  {
    hide S.Submit, ScheduleRetry, Throws, At, Returns, Transmit, S.Signed;
    var c := s.calls[other];
    ThrowsElsewhere(s, other, c.caller, code, id);
    match c.frame
    case Submitting(op, _) =>
      var sent := if reached && op.signed.Some? && S.Signed(op.signed.value.payload)
                  then Transmit(s, other, op.signed.value.payload, false) else s;
      if op.signed.Some? { Transmits(s, other, op.signed.value.payload); }
      AtElsewhere(sent, other, c.caller, SaveRetry(ScheduleRetry(op, s.now).(errorCode := Some(code))), id);
    case SaveSubmitted(op, _) =>
      AtElsewhere(s, other, c.caller, SaveRetry(ScheduleRetry(op, s.now).(errorCode := Some(code))), id);
    case _ =>
  }

  ghost predicate Found(start: Sys, run: seq<Action>, id: string) {
    exists k :: 0 <= k < |run| && FindsFailure(Run(start, run[..k]), id)
  }

  lemma FoundLater(start: Sys, run: seq<Action>, a: Action, id: string)
    requires Found(start, run, id) || FindsFailure(Run(start, run), id)
    ensures Found(start, run + [a], id)
  {
    hide FindsFailure, Run;
    if k :| 0 <= k < |run| && FindsFailure(Run(start, run[..k]), id) {
      assert (run + [a])[..k] == run[..k];
    } else {
      assert (run + [a])[..|run|] == run;
    }
  }

  lemma {:induction false} RunOnlyIf(start: Sys, run: seq<Action>, id: string)
    requires Inv(start) && start.ops == map[] && start.calls == map[]
    ensures OnlyIf(Run(start, run), id, Found(start, run, id))
    decreases |run|
  {
    hide Inv, OnlyIf, Step, FindsFailure;
    if run == [] {
      NothingCondemned(start, id);
    } else {
      var before, a := run[..|run| - 1], run[|run| - 1];
      assert run == before + [a];
      RunOnlyIf(start, before, id);
      RunKeeps(start, before);
      RunSnoc(start, before, a);
      var s := Run(start, before);
      StepOnlyIf(s, a, id, Found(start, before, id));
      if Found(start, before, id) || FindsFailure(s, id) { FoundLater(start, before, a, id); }
      WeakenOnlyIf(Run(start, run), id, Found(start, before, id) || FindsFailure(s, id), Found(start, run, id));
    }
  }

  lemma NothingCondemned(start: Sys, id: string)
    requires start.ops == map[] && start.calls == map[]
    ensures OnlyIf(start, id, Found(start, [], id))
  {}

  /**
   * In every run, an operation with a transaction hash that has failed for good, other than by the worker giving up,
   * was polled while the receipt of its hash was a failure, or was read back and did not match. A transaction that is
   * pending or unknown never fails an operation for good.
   */
  lemma NoFailureWithoutCause(maxAttempts: nat, feePayer: bool, run: seq<Action>, id: string)
    requires var s := Run(Init(maxAttempts, feePayer), run);
             && id in s.ops && s.ops[id].phase == FailedTerminal && s.ops[id].txHash.Some?
             && s.ops[id].errorCode != Some(MaxAttemptsExceeded)
    ensures exists k :: 0 <= k < |run| && FindsFailure(Run(Init(maxAttempts, feePayer), run[..k]), id)
  {
    hide Inv, Run, FindsFailure;
    InitInv(maxAttempts, feePayer);
    RunOnlyIf(Init(maxAttempts, feePayer), run, id);
  }
}
