/**
 * What becomes of an operation whose effect is on the chain before its own submission has a saved
 * hash: the situation after a crash between submitting and saving, or when someone else was first.
 */
module ProtocolRecovery {
  import opened Common
  import opened Commands
  import opened Operations
  import opened Protocol
  import opened ProtocolInvariant
  import opened ProtocolSteps
  import opened ProtocolSafety
  import opened ProtocolOutcomes
  import S = SimulatedChain

  /** The ledger in which the credential an operation issues or revokes was issued or revoked, if it was. */
  function EffectLedger(chain: S.Chain, op: Operation): Option<nat> {
    if op.fingerprint.RegisterEntity? || op.subjectKey !in chain.credentials then None
    else if op.fingerprint.IssueCredential? then Some(chain.credentials[op.subjectKey].issuedLedger)
    else if chain.credentials[op.subjectKey].revoked then chain.credentials[op.subjectKey].revokedLedger
    else None
  }

  /** A transaction hash the record carries closed after `ledger`. */
  ghost predicate HashAfter(chain: S.Chain, op: Operation, ledger: nat) {
    op.txHash.Some? ==> op.txHash.value in chain.pending && chain.pending[op.txHash.value].ledger > ledger
  }

  ghost predicate FrameLate(chain: S.Chain, f: Frame, ledger: nat) {
    f.HandlerRead?
    || (&& HashAfter(chain, f.op, ledger) && f.op.phase != Confirmed
        && (f.ReadingBack? ==> f.op.ledger.Some? && f.op.ledger.value > ledger))
  }

  ghost predicate RecordLate(s: Sys, id: string, ledger: nat) {
    && id in s.ops && ledger <= s.chain.ledger
    && EffectLedger(s.chain, s.ops[id]) == Some(ledger)
    && HashAfter(s.chain, s.ops[id], ledger) && s.ops[id].phase != Confirmed
  }

  /** The effect closed in `ledger`, and everything the operation knows of its own submission came later. */
  ghost predicate Late(s: Sys, id: string, ledger: nat) {
    RecordLate(s, id, ledger) && (id in s.calls ==> FrameLate(s.chain, s.calls[id].frame, ledger))
  }

  // ----- what keeps it -----

  lemma SameView(s: Sys, t: Sys, id: string, ledger: nat)
    requires Late(s, id, ledger) && t.chain == s.chain && id in t.ops && t.ops[id] == s.ops[id]
    requires id in t.calls ==> id in s.calls && t.calls[id] == s.calls[id]
    ensures Late(t, id, ledger)
  {}

  lemma Put(s: Sys, id: string, caller: Caller, f: Frame, ledger: nat)
    requires RecordLate(s, id, ledger) && FrameLate(s.chain, f, ledger)
    ensures Late(At(s, id, caller, f), id, ledger)
  {}

  lemma Gone(s: Sys, id: string, ledger: nat)
    requires RecordLate(s, id, ledger)
    ensures Late(Returns(s, id), id, ledger)
  {}

  lemma Thrown(s: Sys, id: string, caller: Caller, code: ErrorCode, ledger: nat)
    requires RecordLate(s, id, ledger)
    ensures Late(Throws(s, id, caller, code), id, ledger)
  {}

  lemma Written(s: Sys, id: string, op: Operation, ledger: nat)
    requires RecordLate(s, id, ledger) && WriteOk(s, id, op) && HashAfter(s.chain, op, ledger) && op.phase != Confirmed
    ensures RecordLate(Save(s, op), id, ledger)
  {
    hide IntentOk, PhaseOk, ConfirmedOk;
  }

  lemma EffectStays(s: S.Chain, p: S.Payload, staysPending: bool, op: Operation, ledger: nat)
    requires S.EntitiesOk(s) && EffectLedger(s, op) == Some(ledger)
    ensures EffectLedger(S.Submit(s, p, staysPending).0, op) == Some(ledger)
  {
    hide S.Submit;
    S.SubmitExtends(s, p, staysPending);
  }

  lemma HashStaysAfter(s: S.Chain, p: S.Payload, staysPending: bool, op: Operation, ledger: nat)
    requires S.Signed(p) && HashAfter(s, op, ledger) && ledger <= s.ledger
    ensures HashAfter(S.Submit(s, p, staysPending).0, op, ledger) && ledger <= S.Submit(s, p, staysPending).0.ledger
    ensures HashAfter(S.Submit(s, p, staysPending).0, op.(txHash := Some(S.Sha256(p)), phase := Submitted), ledger)
  {
    SubmitReceipts(s, p, staysPending);
  }

  /** A submission by anyone. */
  lemma ChainMoves(s: Sys, t: Sys, id: string, p: S.Payload, staysPending: bool, ledger: nat)
    requires Late(s, id, ledger) && S.EntitiesOk(s.chain) && S.Signed(p)
    requires t.chain == S.Submit(s.chain, p, staysPending).0 && t.ops == s.ops && t.calls == s.calls
    ensures Late(t, id, ledger)
  {
    hide S.Submit, HashAfter, S.EntitiesOk;
    EffectStays(s.chain, p, staysPending, s.ops[id], ledger);
    HashStaysAfter(s.chain, p, staysPending, s.ops[id], ledger);
    if id in s.calls && !s.calls[id].frame.HandlerRead? {
      HashStaysAfter(s.chain, p, staysPending, s.calls[id].frame.op, ledger);
    }
  }

  lemma EntitiesAreOk(s: Sys)
    requires Inv(s)
    ensures S.EntitiesOk(s.chain)
  {}

  // ----- the operation's own call -----

  /** The readback of a submission that closed after the effect does not match. */
  lemma LateReadbackFails(chain: S.Chain, op: Operation, ledger: nat)
    requires EffectLedger(chain, op) == Some(ledger) && op.ledger.Some? && op.ledger.value > ledger
    ensures !ReadbackMatches(chain, op)
  {}

  lemma LatePoll(chain: S.Chain, op: Operation, nullLedger: bool, now: nat, ledger: nat)
    requires HashAfter(chain, op, ledger) && op.txHash.Some?
    ensures var next := AfterPoll(op, S.Poll(chain, op.txHash.value, nullLedger), now);
            FrameLate(chain, if next.phase == Confirming then ReadingBack(next) else SaveOutcome(next), ledger)
  {}

  lemma AdvanceLate(s: Sys, id: string, staysPending: bool, nullLedger: bool, ledger: nat)
    requires Inv(s) && Late(s, id, ledger) && id in s.calls
    ensures Late(AdvanceCall(s, id, staysPending, nullLedger), id, ledger)
  {
    hide Inv, RestOk, IntentOk, PhaseOk, ConfirmedOk, Late, HashAfter, S.Submit, S.Poll, StartPoll, Throws, Save,
         Transmit;
    hide EffectLedger, AfterPoll, ReadbackMatches;
    var c := s.calls[id];
    Enter(s, id);
    FrameOf(s, id, ledger);
    match c.frame
    case SaveSigned(op) =>
      Written(s, id, op, ledger);
      Saves(s, op);
      Put(Save(s, op), id, c.caller, Submitting(op, false), ledger);
    case Submitting(op, _) => TransmitLate(s, id, staysPending, ledger);
    case SaveSubmitted(op, _) =>
      Written(s, id, op, ledger);
      Saves(s, op);
      PollLate(Save(s, op), id, op, c.caller, ledger);
    case SaveConfirming(op) =>
      Written(s, id, op, ledger);
      Saves(s, op);
      Put(Save(s, op), id, c.caller, Polling(op), ledger);
    case Polling(op) =>
      if op.txHash.Some? {
        var next := AfterPoll(op, S.Poll(s.chain, op.txHash.value, nullLedger), s.now);
        LatePoll(s.chain, op, nullLedger, s.now, ledger);
        Put(s, id, c.caller, if next.phase == Confirming then ReadingBack(next) else SaveOutcome(next), ledger);
      }
    case ReadingBack(op) =>
      ReadbackLate(s, id, op, ledger);
      Put(s, id, c.caller, SaveOutcome(AfterReadback(op, ReadbackMatches(s.chain, op))), ledger);
    case SaveOutcome(op) =>
      Written(s, id, op, ledger);
      Gone(Save(s, op), id, ledger);
    case SaveRetry(op) =>
      Written(s, id, op, ledger);
      Thrown(Save(s, op), id, c.caller, SubmissionFailed, ledger);
    case HandlerRead(code) => HandlerLate(s, id, code, ledger);
    case HandlerSave(op) =>
      Written(s, id, op, ledger);
      Gone(Save(s, op), id, ledger);
  }

  lemma FrameOf(s: Sys, id: string, ledger: nat)
    requires Late(s, id, ledger) && id in s.calls
    ensures RecordLate(s, id, ledger) && FrameLate(s.chain, s.calls[id].frame, ledger)
  {}

  lemma Saves(s: Sys, op: Operation)
    ensures Save(s, op).chain == s.chain && (op.operationId in s.ops ==> op.operationId in Save(s, op).ops)
  {}

  lemma TransmitLate(s: Sys, id: string, staysPending: bool, ledger: nat)
    requires Inv(s) && Late(s, id, ledger) && id in s.calls && s.calls[id].frame.Submitting?
    ensures Late(AdvanceCall(s, id, staysPending, false), id, ledger)
    ensures s.calls[id].frame.op.signed.Some? && S.Signed(s.calls[id].frame.op.signed.value.payload)
            && Late(Transmit(s, id, s.calls[id].frame.op.signed.value.payload, staysPending), id, ledger)
  {
    hide Inv, RestOk, HashAfter, S.Submit, CanonicalKey, SubjectKey, SpecFor, ExpectedFor, S.EntitiesOk, EffectLedger;
    Enter(s, id);
    EntitiesAreOk(s);
    var op := s.calls[id].frame.op;
    var payload := op.signed.value.payload;
    var t := Transmit(s, id, payload, staysPending);
    ChainMoves(s, t, id, payload, staysPending, ledger);
    HashStaysAfter(s.chain, payload, staysPending, op, ledger);
    Put(t, id, s.calls[id].caller,
        SaveSubmitted(op.(txHash := Some(S.Sha256(payload)), phase := Submitted), s.calls[id].frame.recovery), ledger);
  }

  lemma PollLate(s: Sys, id: string, op: Operation, caller: Caller, ledger: nat)
    requires RecordLate(s, id, ledger) && op.operationId == id && HashAfter(s.chain, op, ledger)
    ensures Late(StartPoll(s, op, caller), id, ledger)
  {
    hide RecordLate, Late, Throws;
    if op.txHash.Some? && MayMove(op.phase, Confirming) {
      Put(s, id, caller, SaveConfirming(op.(phase := Confirming)), ledger);
    } else {
      Thrown(s, id, caller, InvalidTransition, ledger);
    }
  }

  lemma ReadbackLate(s: Sys, id: string, op: Operation, ledger: nat)
    requires Inv(s) && Late(s, id, ledger) && id in s.calls && s.calls[id].frame == ReadingBack(op)
    ensures FrameLate(s.chain, SaveOutcome(AfterReadback(op, ReadbackMatches(s.chain, op))), ledger)
  {
    hide Inv, RestOk, HashAfter, ReadbackMatches, IntentOk, PhaseOk, ConfirmedOk;
    Enter(s, id);
    LateReadbackFails(s.chain, op, ledger);
    assert AfterReadback(op, false).txHash == op.txHash;
    SameHash(s.chain, op, AfterReadback(op, false), ledger);
  }

  lemma SameHash(chain: S.Chain, a: Operation, b: Operation, ledger: nat)
    requires HashAfter(chain, a, ledger) && b.txHash == a.txHash
    ensures HashAfter(chain, b, ledger)
  {}

  lemma HandlerLate(s: Sys, id: string, code: ErrorCode, ledger: nat)
    requires RecordLate(s, id, ledger) && id in s.calls && s.calls[id].frame == HandlerRead(code)
    ensures Late(AdvanceCall(s, id, false, false), id, ledger)
  {
    var write := AfterWorkerError(s.ops[id], code, s.now, s.maxAttempts);
    if write.Some? {
      Put(s, id, s.calls[id].caller, HandlerSave(write.value), ledger);
    } else {
      Gone(s, id, ledger);
    }
  }

  lemma FailLate(s: Sys, id: string, code: ErrorCode, reached: bool, ledger: nat)
    requires Inv(s) && Late(s, id, ledger) && id in s.calls
    ensures Late(FailCall(s, id, code, reached), id, ledger)
  {
    hide Inv, RestOk, S.Submit, Throws, Transmit, IntentOk, PhaseOk, ConfirmedOk, HashAfter, EffectLedger;
    var c := s.calls[id];
    match c.frame
    case Submitting(op, _) =>
      TransmitLate(s, id, false, ledger);
      var sent := if reached then Transmit(s, id, op.signed.value.payload, false) else s;
      assert sent.now == s.now && id in sent.calls && sent.calls[id] == c by {
        hide *; Transmits(s, id, op.signed.value.payload);
      }
      RetryLate(sent, id, op, code, ledger);
    case SaveSubmitted(op, recovery) =>
      if recovery { RetryLate(s, id, op, code, ledger); } else { Thrown(s, id, c.caller, code, ledger); }
    case HandlerRead(_) => Gone(s, id, ledger);
    case HandlerSave(_) => Gone(s, id, ledger);
    case _ => Thrown(s, id, c.caller, code, ledger);
  }

  lemma Transmits(s: Sys, id: string, payload: S.Payload)
    ensures var t := Transmit(s, id, payload, false); t.now == s.now && t.calls == s.calls && t.ops == s.ops
  {}

  lemma RetryLate(s: Sys, id: string, op: Operation, code: ErrorCode, ledger: nat)
    requires RecordLate(s, id, ledger) && id in s.calls && FrameLate(s.chain, s.calls[id].frame, ledger)
    requires !s.calls[id].frame.HandlerRead? && s.calls[id].frame.op == op
    ensures Late(At(s, id, s.calls[id].caller, SaveRetry(ScheduleRetry(op, s.now).(errorCode := Some(code)))), id,
                 ledger)
  {}

  // ----- every action -----

  lemma StartLate(s: Sys, a: Action, id: string, ledger: nat)
    requires Inv(s) && Late(s, id, ledger)
    requires Starts(a)
    ensures Late(StepStart(s, a), id, ledger)
  {
    hide Inv, RestOk, HashAfter, EffectLedger, StartSubmit, StartPoll, Throws, Actionable;
    if a.operationId != id {
      StartElsewhere(s, a, id);
      UntouchedStaysLate(s, StepStart(s, a), id, ledger);
    } else if !a.WorkerForgets? && s.ops[id].operationId == id && id !in s.calls {
      match a
      case SubmitSigned(_, payload, signer, assembled) => SubmitLate(s, id, payload, signer, assembled, Api, ledger);
      case Reconcile(_) => PollLate(s, id, s.ops[id], Api, ledger);
      case Claim(_, _) =>
      case WorkerMisses(_, w, code) => Thrown(s.(claimed := s.claimed - {Copy(w, id)}), id, Worker, code, ledger);
      case WorkerProcess(_, w) =>
        if Copy(w, id) in s.claimed {
          var copy, t := s.claimed[Copy(w, id)], s.(claimed := s.claimed - {Copy(w, id)});
          if copy.phase != Signed {
            PollLate(t, id, t.ops[id], Worker, ledger);
          } else if copy.signed.None? {
            Thrown(t, id, Worker, InvalidTransition, ledger);
          } else {
            SubmitLate(t, id, copy.signed.value.payload, copy.signed.value.signer, copy.signed.value.payload, Worker,
                       ledger);
          }
        }
    }
  }

  lemma SubmitLate(s: Sys, id: string, payload: S.Payload, signer: Address, assembled: S.Payload, caller: Caller,
                   ledger: nat)
    requires RecordLate(s, id, ledger)
    ensures Late(StartSubmit(s, id, payload, signer, assembled, caller), id, ledger)
  {
    hide Throws, FinalPayload;
    Thrown(s, id, caller, UnauthorizedPayload, ledger);
    Thrown(s, id, caller, InvalidTransition, ledger);
  }

  // ----- calls on other operations -----

  /** Nothing that concerns `id` differs. */
  ghost predicate Untouched(s: Sys, t: Sys, id: string) {
    && t.chain == s.chain && t.wire == s.wire
    && (id in s.ops ==> id in t.ops && t.ops[id] == s.ops[id])
    && (id in t.calls ==> id in s.calls && t.calls[id] == s.calls[id])
  }

  lemma AtElsewhere(s: Sys, other: string, caller: Caller, f: Frame, id: string)
    requires other != id
    ensures Untouched(s, At(s, other, caller, f), id)
  {}

  lemma ThrowsElsewhere(s: Sys, other: string, caller: Caller, code: ErrorCode, id: string)
    requires other != id
    ensures Untouched(s, Throws(s, other, caller, code), id) && Untouched(s, Returns(s, other), id)
  {}

  lemma PollElsewhere(s: Sys, op: Operation, caller: Caller, id: string)
    requires op.operationId != id
    ensures Untouched(s, StartPoll(s, op, caller), id)
  {
    hide At, Throws, Untouched;
    ThrowsElsewhere(s, op.operationId, caller, InvalidTransition, id);
    AtElsewhere(s, op.operationId, caller, SaveConfirming(op.(phase := Confirming)), id);
  }

  lemma SubmitElsewhere(s: Sys, other: string, payload: S.Payload, signer: Address, assembled: S.Payload,
                        caller: Caller, id: string)
    requires other != id && other in s.ops
    ensures Untouched(s, StartSubmit(s, other, payload, signer, assembled, caller), id)
  {
    hide At, Throws, Untouched, FinalPayload;
    var op := s.ops[other];
    ThrowsElsewhere(s, other, caller, InvalidTransition, id);
    ThrowsElsewhere(s, other, caller, UnauthorizedPayload, id);
    AtElsewhere(s, other, caller, Submitting(op, true), id);
    var final := FinalPayload(s, op, payload, signer, assembled);
    if final.Some? {
      AtElsewhere(s, other, caller,
                  SaveSigned(op.(signed := Some(SignedPayload(final.value, signer)), phase := Signed)), id);
    }
  }

  lemma ForgetElsewhere(s: Sys, copies: map<Copy, Operation>, t: Sys, id: string)
    requires Untouched(s.(claimed := copies), t, id)
    ensures Untouched(s, t, id) && Untouched(s, s.(claimed := copies), id) && Untouched(s, s, id)
  {}

  /** What starts on one operation does not show on another. */
  lemma StartElsewhere(s: Sys, a: Action, id: string)
    requires Starts(a)
    requires a.operationId != id
    ensures Untouched(s, StepStart(s, a), id)
  {
    hide Actionable, StartSubmit, StartPoll, Throws;
    var other := a.operationId;
    if !a.WorkerForgets? && other in s.ops && s.ops[other].operationId == other && other !in s.calls {
      match a
      case SubmitSigned(_, payload, signer, assembled) =>
        SubmitElsewhere(s, other, payload, signer, assembled, Api, id);
      case Reconcile(_) => PollElsewhere(s, s.ops[other], Api, id);
      case Claim(_, _) =>
      case WorkerMisses(_, w, code) =>
        ThrowsElsewhere(s.(claimed := s.claimed - {Copy(w, other)}), other, Worker, code, id);
      case WorkerProcess(_, w) =>
        if Copy(w, other) in s.claimed {
          var copy, t := s.claimed[Copy(w, other)], s.(claimed := s.claimed - {Copy(w, other)});
          PollElsewhere(t, t.ops[other], Worker, id);
          ThrowsElsewhere(t, other, Worker, InvalidTransition, id);
          if copy.signed.Some? {
            SubmitElsewhere(t, other, copy.signed.value.payload, copy.signed.value.signer, copy.signed.value.payload,
                            Worker, id);
          }
        }
    }
  }

  lemma SaveElsewhere(s: Sys, op: Operation, id: string)
    requires op.operationId != id
    ensures Untouched(s, Save(s, op), id)
  {}

  /** The state a call's own continuation starts from: its record saved, or its payload sent, or neither. */
  function Basis(s: Sys, other: string, staysPending: bool): Sys
    requires other in s.calls
  {
    var f := s.calls[other].frame;
    if Saving(f) then Save(s, f.op)
    else if f.Submitting? && f.op.signed.Some? && S.Signed(f.op.signed.value.payload) then
      Transmit(s, other, f.op.signed.value.payload, staysPending)
    else s
  }

  lemma AdvanceFromBasis(s: Sys, other: string, staysPending: bool, nullLedger: bool, id: string)
    requires other in s.calls && other != id
             && (!s.calls[other].frame.HandlerRead? ==> s.calls[other].frame.op.operationId == other)
    ensures Untouched(Basis(s, other, staysPending), AdvanceCall(s, other, staysPending, nullLedger), id)
  {
    hide S.Signed, S.Poll, AfterPoll, AfterReadback, AfterWorkerError, ReadbackMatches, StartPoll, Save, Throws,
         Transmit, At, Returns;
    hide Untouched, Basis;
    var c := s.calls[other];
    var b := Basis(s, other, staysPending);
    ThrowsElsewhere(b, other, c.caller, SubmissionFailed, id);
    assert Untouched(s, s, id) by { ForgetElsewhere(s, s.claimed, s, id); }
    match c.frame
    case SaveSigned(op) => AtElsewhere(b, other, c.caller, Submitting(op, false), id); Bases(s, other, staysPending);
    case Submitting(op, recovery) =>
      Bases(s, other, staysPending);
      if op.signed.Some? && S.Signed(op.signed.value.payload) {
        AtElsewhere(b, other, c.caller,
                    SaveSubmitted(op.(txHash := Some(S.Sha256(op.signed.value.payload)), phase := Submitted),
                                  recovery), id);
      }
    case SaveSubmitted(op, _) => PollElsewhere(b, op, c.caller, id); Bases(s, other, staysPending);
    case SaveConfirming(op) => AtElsewhere(b, other, c.caller, Polling(op), id); Bases(s, other, staysPending);
    case Polling(op) =>
      Bases(s, other, staysPending);
      if op.txHash.Some? {
        var next := AfterPoll(op, S.Poll(s.chain, op.txHash.value, nullLedger), s.now);
        AtElsewhere(s, other, c.caller, if next.phase == Confirming then ReadingBack(next) else SaveOutcome(next), id);
      }
    case ReadingBack(op) =>
      Bases(s, other, staysPending);
      AtElsewhere(s, other, c.caller, SaveOutcome(AfterReadback(op, ReadbackMatches(s.chain, op))), id);
    case HandlerRead(code) =>
      Bases(s, other, staysPending);
      if other in s.ops {
        var write := AfterWorkerError(s.ops[other], code, s.now, s.maxAttempts);
        if write.Some? { AtElsewhere(s, other, c.caller, HandlerSave(write.value), id); }
      }
    case _ => Bases(s, other, staysPending);
  }

  lemma Bases(s: Sys, other: string, staysPending: bool)
    requires other in s.calls
    ensures var f, b := s.calls[other].frame, Basis(s, other, staysPending);
            && (Saving(f) ==> b == Save(s, f.op))
            && (f.Submitting? ==> b == if f.op.signed.Some? && S.Signed(f.op.signed.value.payload)
                                       then Transmit(s, other, f.op.signed.value.payload, staysPending) else s)
            && (!Saving(f) && !f.Submitting? ==> b == s)
  {
    hide S.Signed, Save, Transmit;
  }

  lemma BasisLate(s: Sys, other: string, staysPending: bool, id: string, ledger: nat)
    requires Inv(s) && Late(s, id, ledger) && other in s.calls && other != id
    requires !s.calls[other].frame.HandlerRead? ==> s.calls[other].frame.op.operationId == other
    ensures Late(Basis(s, other, staysPending), id, ledger)
  {
    hide Inv, Late, S.Submit, Save, Untouched;
    EntitiesAreOk(s);
    StaysThere(s, id, ledger);
    var f := s.calls[other].frame;
    if Saving(f) {
      SaveElsewhere(s, f.op, id);
      UntouchedStaysLate(s, Save(s, f.op), id, ledger);
    } else if f.Submitting? && f.op.signed.Some? && S.Signed(f.op.signed.value.payload) {
      ChainMoves(s, Basis(s, other, staysPending), id, f.op.signed.value.payload, staysPending, ledger);
    }
  }

  lemma UntouchedStaysLate(s: Sys, t: Sys, id: string, ledger: nat)
    requires Late(s, id, ledger) && Untouched(s, t, id)
    ensures Late(t, id, ledger)
  {
    SameView(s, t, id, ledger);
  }

  lemma OwnRecord(s: Sys, other: string)
    requires Inv(s) && other in s.calls
    ensures !s.calls[other].frame.HandlerRead? ==> s.calls[other].frame.op.operationId == other
  {
    hide Inv, RestOk, IntentOk, PhaseOk, ConfirmedOk, LogOk;
    Enter(s, other);
  }

  lemma AdvanceElsewhere(s: Sys, other: string, staysPending: bool, nullLedger: bool, id: string, ledger: nat)
    requires Inv(s) && Late(s, id, ledger) && other in s.calls && other != id
    ensures Late(AdvanceCall(s, other, staysPending, nullLedger), id, ledger)
  {
    hide *;
    OwnRecord(s, other);
    BasisLate(s, other, staysPending, id, ledger);
    AdvanceFromBasis(s, other, staysPending, nullLedger, id);
    UntouchedStaysLate(Basis(s, other, staysPending), AdvanceCall(s, other, staysPending, nullLedger), id, ledger);
  }

  lemma StaysThere(s: Sys, id: string, ledger: nat)
    requires Late(s, id, ledger)
    ensures id in s.ops
  {}

  lemma FailElsewhere(s: Sys, other: string, code: ErrorCode, reached: bool, id: string, ledger: nat)
    requires Inv(s) && Late(s, id, ledger) && other in s.calls && other != id
    ensures Late(FailCall(s, other, code, reached), id, ledger)
  {
    hide Inv, Late, S.Submit, ScheduleRetry, Transmit, At, Throws, Returns, Untouched, S.Signed;
    EntitiesAreOk(s);
    var c, t := s.calls[other], FailCall(s, other, code, reached);
    ThrowsElsewhere(s, other, c.caller, code, id);
    match c.frame
    case Submitting(op, _) =>
      var sent := if reached && op.signed.Some? && S.Signed(op.signed.value.payload)
                  then Transmit(s, other, op.signed.value.payload, false) else s;
      if sent != s { TransmitMoves(s, other, op.signed.value.payload, id, ledger); }
      AtElsewhere(sent, other, c.caller, SaveRetry(ScheduleRetry(op, s.now).(errorCode := Some(code))), id);
      UntouchedStaysLate(sent, t, id, ledger);
    case SaveSubmitted(op, recovery) =>
      AtElsewhere(s, other, c.caller, SaveRetry(ScheduleRetry(op, s.now).(errorCode := Some(code))), id);
      UntouchedStaysLate(s, t, id, ledger);
    case _ => UntouchedStaysLate(s, t, id, ledger);
  }

  lemma TransmitMoves(s: Sys, other: string, payload: S.Payload, id: string, ledger: nat)
    requires Late(s, id, ledger) && S.EntitiesOk(s.chain) && S.Signed(payload)
    ensures Late(Transmit(s, other, payload, false), id, ledger)
  {
    hide Late, S.Submit;
    ChainMoves(s, Transmit(s, other, payload, false), id, payload, false, ledger);
  }

  lemma PrepareElsewhere(s: Sys, a: Action, id: string)
    requires (a.PrepareStart? || a.PrepareSimulate? || a.PrepareCreate? || a.PrepareAbandon?) && id in s.ops
    ensures var t := StepPrepare(s, a);
            t.chain == s.chain && t.calls == s.calls && id in t.ops && t.ops[id] == s.ops[id]
  {
    hide LookUp, SpecFor, NewOperation, S.Validate;
  }

  lemma StepLate(s: Sys, a: Action, id: string, ledger: nat)
    requires Inv(s) && Late(s, id, ledger)
    ensures Late(Step(s, a), id, ledger)
  {
    hide Inv, Late, StepPrepare, StepStart, AdvanceCall, FailCall, S.Submit;
    StaysThere(s, id, ledger);
    match a
    case Tick(_) => SameView(s, Step(s, a), id, ledger);
    case Advance(other, staysPending, nullLedger) =>
      if other in s.calls {
        if other == id { AdvanceLate(s, id, staysPending, nullLedger, ledger); }
        else { AdvanceElsewhere(s, other, staysPending, nullLedger, id, ledger); }
      }
    case Fail(other, code, reached) =>
      if other in s.calls {
        if other == id { FailLate(s, id, code, reached, ledger); } else {
          FailElsewhere(s, other, code, reached, id, ledger);
        }
      }
    case Crash(_) => SameView(s, Step(s, a), id, ledger);
    case Foreign(payload, staysPending) =>
      EntitiesAreOk(s);
      if S.Signed(payload) && S.HexIds(payload.call) {
        ChainMoves(s, Step(s, a), id, payload, staysPending, ledger);
      } else {
        SameView(s, Step(s, a), id, ledger);
      }
    case SubmitSigned(_, _, _, _) => StartLate(s, a, id, ledger);
    case Reconcile(_) => StartLate(s, a, id, ledger);
    case Claim(_, _) => StartLate(s, a, id, ledger);
    case WorkerProcess(_, _) => StartLate(s, a, id, ledger);
    case WorkerMisses(_, _, _) => StartLate(s, a, id, ledger);
    case WorkerForgets(_, _) => StartLate(s, a, id, ledger);
    case _ =>
      PrepareElsewhere(s, a, id);
      SameView(s, Step(s, a), id, ledger);
  }

  lemma {:induction false} RunLate(s: Sys, later: seq<Action>, id: string, ledger: nat)
    requires Inv(s) && Late(s, id, ledger)
    ensures Late(Run(s, later), id, ledger)
    decreases |later|
  {
    hide Inv, Late, Step;
    if later != [] {
      StepLate(s, later[0], id, ledger);
      StepKeeps(s, later[0]);
      RunLate(Step(s, later[0]), later[1..], id, ledger);
    }
  }

  /** Neither the record nor the call in flight on it carries a transaction hash. */
  ghost predicate NoHash(s: Sys, id: string) {
    && id in s.ops && s.ops[id].txHash.None?
    && (id in s.calls ==> s.calls[id].frame.HandlerRead? || s.calls[id].frame.op.txHash.None?)
  }

  lemma NoHashIsLate(s: Sys, id: string, ledger: nat)
    requires Inv(s) && NoHash(s, id) && EffectLedger(s.chain, s.ops[id]) == Some(ledger)
    ensures Late(s, id, ledger)
  {
    hide RestOk, IntentOk, SentOk, KeyOk;
    LogOf(s);
    LoggedCredential(s.chain, s.wire, s.ops[id].subjectKey);
    assert RestOk(s, None);
    Unconfirmed(s, id);
  }

  lemma Unconfirmed(s: Sys, id: string)
    requires Inv(s) && NoHash(s, id)
    ensures s.ops[id].phase != Confirmed
    ensures id in s.calls && !s.calls[id].frame.HandlerRead? ==>
            s.calls[id].frame.op.phase != Confirmed && !s.calls[id].frame.ReadingBack?
  {
    hide IntentOk, ConfirmedOk, LogOk, SentOk, KeyOk;
    assert StoredOk(s, id);
    if id in s.calls { assert CallOk(s, id, s.calls[id]); }
  }

  /**
   * Over all runs: once the credential an operation issues is on the chain, or the one it revokes is
   * revoked, before the operation has a hash of its own, it never confirms, whatever happens later.
   * So it is after a crash between submitting and saving the hash: the effect is there, the resend
   * closes in a later ledger, and its readback fails.
   */
  lemma EffectFirstNeverConfirms(s: Sys, later: seq<Action>, id: string)
    requires Inv(s) && NoHash(s, id) && EffectLedger(s.chain, s.ops[id]).Some?
    ensures id in Run(s, later).ops && Run(s, later).ops[id].phase != Confirmed
  {
    hide Inv, EffectLedger, HashAfter;
    var ledger := EffectLedger(s.chain, s.ops[id]).value;
    NoHashIsLate(s, id, ledger);
    RunLate(s, later, id, ledger);
  }

  // ----- when a signed operation can still confirm -----

  function SixAdvances(id: string): seq<Action> {
    var a := Advance(id, false, false);
    [a, a, a, a, a, a]
  }

  lemma UndisturbedRuns(s: Sys, id: string)
    ensures Run(s, SixAdvances(id)) == Undisturbed(s, id)
  {
    hide Step, Run;
    var a := Advance(id, false, false);
    RunSix(s, a, a, a, a, a, a);
  }

  /** Recovery of a signed record sends its stored payload again. */
  lemma RecoveryStarts(s: Sys, id: string)
    requires Inv(s) && id in s.ops && id !in s.calls && s.ops[id].phase == Signed
    ensures s.ops[id].signed.Some?
    ensures var p := s.ops[id].signed.value;
            Step(s, SubmitSigned(id, p.payload, p.signer, p.payload)) == At(s, id, Api, Submitting(s.ops[id], true))
  {
    hide Inv, RestOk, IntentOk, ConfirmedOk;
    EnterIdle(s, id);
  }

  function Recovery(id: string, p: SignedPayload): seq<Action> {
    [SubmitSigned(id, p.payload, p.signer, p.payload)] + SixAdvances(id)
  }

  lemma RecoveryRuns(s: Sys, id: string)
    requires Inv(s) && id in s.ops && id !in s.calls && s.ops[id].phase == Signed
    ensures s.ops[id].signed.Some? && s.ops[id].signed.value.payload.Envelope?
    ensures var p := s.ops[id].signed.value;
            var t := Run(s, Recovery(id, p));
            && id in t.ops
            && t.ops[id].phase
               == if S.Validate(s.chain, p.payload.call).None? && StillToDo(s.chain, s.ops[id].fingerprint)
                  then Confirmed else FailedTerminal
  {
    hide Inv, Step, Undisturbed, SixAdvances, StillToDo, S.Validate;
    RecoveryStarts(s, id);
    var p := s.ops[id].signed.value;
    var start := SubmitSigned(id, p.payload, p.signer, p.payload);
    StepKeeps(s, start);
    SubmissionConfirmsExactlyWhen(Step(s, start), id);
    RunOne(s, start, SixAdvances(id));
    UndisturbedRuns(Step(s, start), id);
  }

  ghost predicate ConfirmsIn(s: Sys, later: seq<Action>, id: string) {
    id in Run(s, later).ops && Run(s, later).ops[id].phase == Confirmed
  }

  lemma EffectOrToDo(chain: S.Chain, wire: seq<Sent>, op: Operation)
    requires LogOk(chain, wire) && IntentOk(op) && op.signed.Some? && op.signed.value.payload.Envelope?
    requires S.Validate(chain, op.signed.value.payload.call).None?
    ensures EffectLedger(chain, op).Some? <==> !StillToDo(chain, op.fingerprint)
  {
    hide LogOk, HashDocument, IsHex64, CanonicalKey;
    if op.subjectKey in chain.credentials { LoggedCredential(chain, wire, op.subjectKey); }
  }
}
