/**
 * The gateway as an object over the store and the transport, running without interleaving. Each call
 * is proved to be a run of the protocol's state machine, so every safety theorem applies to it, and
 * says what it does to its record.
 */
module GatewayCalls {
  import opened Common
  import opened Commands
  import opened Operations
  import opened Protocol
  import opened OperationStore
  import opened GatewayOutcomes
  import S = SimulatedChain

  // ----- the stretches of one call, from its own point of view -----

  /** The call on `id` is over; if it failed on the worker's behalf, the worker's error handler takes over. */
  function Over(b: Sys, id: string, caller: Caller, error: Option<ErrorCode>): Sys {
    if error.Some? && caller == Caller.Worker then At(b, id, caller, HandlerRead(error.value)) else b
  }

  lemma ThrowIsOver(b: Sys, id: string, caller: Caller, frame: Frame, code: ErrorCode)
    requires id !in b.calls
    ensures Throws(At(b, id, caller, frame), id, caller, code) == Over(b, id, caller, Some(code))
  {}

  lemma ThrowAtOnce(b: Sys, id: string, caller: Caller, code: ErrorCode)
    requires id !in b.calls
    ensures Throws(b, id, caller, code) == Over(b, id, caller, Some(code))
  {}

  lemma HowSubmitStarts(b: Sys, id: string, payload: S.Payload, signer: Address, assembled: S.Payload, caller: Caller)
    requires id in b.ops && id !in b.calls
    ensures var op, start := b.ops[id], StartSubmit(b, id, payload, signer, assembled, caller);
            if op.phase == Signed && op.signed == Some(SignedPayload(payload, signer))
              then start == At(b, id, caller, Submitting(op, true))
            else if op.phase != AwaitingSignature && op.phase != Signed
              then start == Over(b, id, caller, Some(InvalidTransition))
            else
              var final := FinalPayload(b, op, payload, signer, assembled);
              if op.phase == Signed || signer != op.actorAddress || final.None?
                then start == Over(b, id, caller, Some(UnauthorizedPayload))
              else
                var saved := op.(signed := Some(SignedPayload(final.value, signer)), phase := Signed);
                start == At(b, id, caller, SaveSigned(saved))
  {}

  lemma SignedSaved(b: Sys, op: Operation, caller: Caller)
    requires op.operationId in b.ops
    ensures Step(At(b, op.operationId, caller, SaveSigned(op)), Advance(op.operationId, false, false))
            == At(Saved(b, op), op.operationId, caller, Submitting(op, false))
  {}

  /** A submission that fails may have reached the network. */
  function Reached(b: Sys, op: Operation, reached: bool): Sys {
    if reached && op.signed.Some? && S.Signed(op.signed.value.payload)
      then Transmit(b, op.operationId, op.signed.value.payload, false) else b
  }

  lemma SubmitAnswers(chain: S.Chain, payload: S.Payload, staysPending: bool)
    requires S.Signed(payload)
    ensures S.Submit(chain, payload, staysPending).1 == Some(S.Sha256(payload))
  {}

  lemma TransmitWhileWaiting(b: Sys, id: string, caller: Caller, frame: Frame, payload: S.Payload, staysPending: bool)
    ensures Transmit(At(b, id, caller, frame), id, payload, staysPending)
            == At(Transmit(b, id, payload, staysPending), id, caller, frame)
  {}

  lemma SendFails(b: Sys, op: Operation, caller: Caller, recovery: bool, reached: bool)
    ensures Step(At(b, op.operationId, caller, Submitting(op, recovery)), Fail(op.operationId, RPC_ERROR, reached))
            == At(Reached(b, op, reached), op.operationId, caller,
                  SaveRetry(ScheduleRetry(op, b.now).(errorCode := Some(RPC_ERROR))))
  {
    hide S.Submit, S.Poll, S.Signed, AfterPoll, AfterReadback, StartPoll, Throws, ScheduleRetry, Transmit, AdvanceCall,
         StepPrepare, StepStart;
    if op.signed.Some? {
      TransmitWhileWaiting(b, op.operationId, caller, Submitting(op, recovery), op.signed.value.payload, false);
    }
    var s := At(b, op.operationId, caller, Submitting(op, recovery));
    assert Step(s, Fail(op.operationId, RPC_ERROR, reached)) == FailCall(s, op.operationId, RPC_ERROR, reached);
  }

  lemma RetrySaved(b: Sys, op: Operation, caller: Caller)
    requires op.operationId in b.ops && op.operationId !in b.calls
    ensures Step(At(b, op.operationId, caller, SaveRetry(op)), Advance(op.operationId, false, false))
            == Over(Saved(b, op), op.operationId, caller, Some(SubmissionFailed))
  {
    hide S.Submit, S.Poll, AfterPoll, AfterReadback, StartPoll, Throws, Over;
    ThrowIsOver(Saved(b, op), op.operationId, caller, SaveRetry(op), SubmissionFailed);
  }

  lemma Transmitted(b: Sys, op: Operation, caller: Caller, recovery: bool, staysPending: bool)
    requires op.signed.Some? && S.Signed(op.signed.value.payload)
    ensures var payload := op.signed.value.payload;
            Step(At(b, op.operationId, caller, Submitting(op, recovery)), Advance(op.operationId, staysPending, false))
            == At(Transmit(b, op.operationId, payload, staysPending), op.operationId, caller,
                  SaveSubmitted(op.(txHash := Some(S.Sha256(payload)), phase := Submitted), recovery))
  {
    hide S.Submit, S.Poll, AfterPoll, AfterReadback, StartPoll, Throws;
  }

  lemma SubmittedSaved(b: Sys, op: Operation, caller: Caller, recovery: bool)
    requires op.operationId in b.ops && op.phase == Submitted && op.txHash.Some?
    ensures Step(At(b, op.operationId, caller, SaveSubmitted(op, recovery)), Advance(op.operationId, false, false))
            == StartPoll(Saved(b, op), op, caller)
  {
    hide S.Submit, S.Poll, AfterPoll, AfterReadback, Throws;
    var id, to := op.operationId, InFlight(caller, SaveConfirming(op.(phase := Confirming)));
    assert b.calls[id := InFlight(caller, SaveSubmitted(op, recovery))][id := to] == b.calls[id := to];
  }

  lemma ConfirmingSaved(b: Sys, record: Operation, caller: Caller)
    requires record.operationId in b.ops && record.txHash.Some? && MayMove(record.phase, Confirming)
    ensures var op := record.(phase := Confirming);
            Step(StartPoll(b, record, caller), Advance(record.operationId, false, false))
            == At(Saved(b, op), record.operationId, caller, Polling(op))
  {
    hide S.Submit, S.Poll, AfterPoll, AfterReadback;
    var id, op := record.operationId, record.(phase := Confirming);
    assert StartPoll(b, record, caller) == At(b, id, caller, SaveConfirming(op));
    assert b.calls[id := InFlight(caller, SaveConfirming(op))][id := InFlight(caller, Polling(op))]
      == b.calls[id := InFlight(caller, Polling(op))];
  }

  /** A save, a poll or a readback that fails ends the call. */
  lemma WaitFails(b: Sys, id: string, caller: Caller, frame: Frame, code: ErrorCode)
    requires id !in b.calls
    requires frame.SaveSigned? || frame.SaveConfirming? || frame.Polling? || frame.ReadingBack? || frame.SaveOutcome?
             || frame.SaveRetry?
    ensures Step(At(b, id, caller, frame), Fail(id, code, false)) == Over(b, id, caller, Some(code))
  {
    hide Throws, ScheduleRetry, Transmit;
    ThrowIsOver(b, id, caller, frame, code);
  }

  /** The hash of what was submitted cannot be saved: a recovery schedules a retry, a first submission is over. */
  lemma SubmittedSaveFails(b: Sys, op: Operation, caller: Caller, recovery: bool, code: ErrorCode)
    requires op.operationId !in b.calls
    ensures Step(At(b, op.operationId, caller, SaveSubmitted(op, recovery)), Fail(op.operationId, code, false))
            == if recovery then At(b, op.operationId, caller,
                                   SaveRetry(ScheduleRetry(op, b.now).(errorCode := Some(code))))
               else Over(b, op.operationId, caller, Some(code))
  {
    hide ScheduleRetry, Transmit, S.Submit;
    ThrowIsOver(b, op.operationId, caller, SaveSubmitted(op, recovery), code);
    var id, frame := op.operationId, SaveRetry(ScheduleRetry(op, b.now).(errorCode := Some(code)));
    assert b.calls[id := InFlight(caller, SaveSubmitted(op, recovery))][id := InFlight(caller, frame)]
      == b.calls[id := InFlight(caller, frame)];
  }

  lemma Polled(b: Sys, id: string, caller: Caller, op: Operation, nullLedger: bool)
    requires op.txHash.Some?
    ensures var next := AfterPoll(op, S.Poll(b.chain, op.txHash.value, nullLedger), b.now);
            Step(At(b, id, caller, Polling(op)), Advance(id, false, nullLedger))
            == At(b, id, caller, if next.phase == Confirming then ReadingBack(next) else SaveOutcome(next))
  {
    hide AfterPoll, S.Poll, S.Submit, S.Signed, StartPoll, Save, Throws;
  }

  lemma ReadBack(b: Sys, id: string, caller: Caller, op: Operation)
    ensures Step(At(b, id, caller, ReadingBack(op)), Advance(id, false, false))
            == At(b, id, caller, SaveOutcome(AfterReadback(op, ReadbackMatches(b.chain, op))))
  {
    hide AfterReadback, ReadbackMatches, AfterPoll, S.Poll, S.Submit, S.Signed, StartPoll, Save, Throws;
  }

  lemma OutcomeSaved(b: Sys, id: string, caller: Caller, op: Operation)
    requires id !in b.calls && id in b.ops && op.operationId == id
    ensures Step(At(b, id, caller, SaveOutcome(op)), Advance(id, false, false)) == Over(Saved(b, op), id, caller, None)
  {}

  // ----- how a call ends -----

  /** The store ends as the outcome says, under `id` alone, and so does the caller's answer. */
  predicate Ended(r: Result<Operation, ErrorCode>, before: map<string, Operation>, after: map<string, Operation>,
                  id: string, o: Outcome)
  {
    r == Report(o) && after == before[id := o.record]
  }

  /** Nothing was written. */
  lemma EndedAsItWas(before: map<string, Operation>, id: string, error: ErrorCode)
    requires id in before
    ensures Ended(Err(error), before, before, id, Outcome(before[id], Some(error)))
    ensures Ended(Ok(before[id]), before, before, id, Outcome(before[id], None))
  {
    assert before == before[id := before[id]];
  }

  lemma EndedOk(r: Result<Operation, ErrorCode>, before: map<string, Operation>, after: map<string, Operation>,
                id: string, o: Outcome)
    requires Ended(r, before, after, id, o)
    ensures r.Ok? ==> o.error.None? && id in after && after[id] == r.value == o.record
  {}

  /** What an earlier save of the call wrote is written over. */
  lemma EndedLater(r: Result<Operation, ErrorCode>, before: map<string, Operation>, between: Operation,
                   after: map<string, Operation>, id: string, o: Outcome)
    requires Ended(r, before[id := between], after, id, o)
    ensures Ended(r, before, after, id, o)
  {}

  lemma PollLooksAtTheChain(record: Operation, w: Weather, b: Sys, b': Sys)
    requires b'.chain == b.chain && b'.now == b.now
    ensures AfterPollAndConfirm(record, w, b') == AfterPollAndConfirm(record, w, b)
    ensures record.txHash.Some? ==> AfterConclude(record, w, b') == AfterConclude(record, w, b)
  {}

  datatype PrepareError = KeyReused | InvalidHash | AlreadyBound | Unavailable

  /** Where a prepare call is given up because the store or the network rejects, if it is. */
  datatype Interruption = Uninterrupted | AtLookup | AtSimulate | AtCreate

  function Prepared(b: Sys, op: Operation): Sys {
    b.(ops := b.ops[op.operationId := op], byKey := b.byKey[op.idempotencyKey := op.operationId])
  }

  function PrepareTrace(c: Command, operationId: string, needsRestore: bool): seq<Action> {
    [PrepareStart(0, c), PrepareSimulate(0, operationId, needsRestore), PrepareCreate(0)]
  }

  lemma RunThree(s: Sys, x: Action, y: Action, z: Action)
    ensures Run(s, [x, y, z]) == Step(Step(Step(s, x), y), z)
  {
    hide Step;
    assert [x, y, z][1..] == [y, z] && [y, z][1..] == [z] && [z][1..] == [];
    var s1, s2 := Step(s, x), Step(Step(s, x), y);
    assert Run(s2, [z]) == Run(Step(s2, z), []);
    assert Run(s1, [y, z]) == Run(s2, [z]);
  }

  function Ticketed(b: Sys, p: Preparing): Sys {
    b.(preparing := b.preparing[0 := p])
  }

  lemma CreateStep(b: Sys, op: Operation)
    requires 0 !in b.preparing && op.operationId !in b.ops
    ensures Step(Ticketed(b, Creating(op)), PrepareCreate(0)) == if op.idempotencyKey in b.byKey then b
            else Prepared(b, op)
  {}

  lemma SimulateStep(b: Sys, c: Command, operationId: string, needsRestore: bool)
    requires SpecFor(c).Ok?
    ensures var op := NewOperation(c, operationId, S.Validate(b.chain, SpecFor(c).value), needsRestore);
            Step(Ticketed(b, Simulating(c)), PrepareSimulate(0, operationId, needsRestore)) == Ticketed(b, Creating(op))
  {
    hide LookUp, SpecFor, NewOperation, S.Validate, StepStart, AdvanceCall, FailCall;
    var op := NewOperation(c, operationId, S.Validate(b.chain, SpecFor(c).value), needsRestore);
    assert b.preparing[0 := Simulating(c)][0 := Creating(op)] == b.preparing[0 := Creating(op)];
  }

  /** A prepare call from its lookup to its create, when nothing comes in between. */
  lemma PrepareRuns(b: Sys, c: Command, operationId: string, needsRestore: bool)
    requires 0 !in b.preparing && LookUp(b, c).Fresh? && SpecFor(c).Ok? && operationId !in b.ops
    ensures var op := NewOperation(c, operationId, S.Validate(b.chain, SpecFor(c).value), needsRestore);
            Run(b, PrepareTrace(c, operationId, needsRestore)) == if op.idempotencyKey in b.byKey then b
              else Prepared(b, op)
  {
    var op := NewOperation(c, operationId, S.Validate(b.chain, SpecFor(c).value), needsRestore);
    assert op.operationId == operationId && Step(b, PrepareStart(0, c)) == Ticketed(b, Simulating(c)) by {
      hide S.Validate, LookUp, SpecFor, StepStart, AdvanceCall, FailCall;
    }
    hide Step, LookUp, SpecFor, NewOperation, S.Validate, Ticketed, Prepared;
    SimulateStep(b, c, operationId, needsRestore);
    CreateStep(b, op);
    RunThree(b, PrepareStart(0, c), PrepareSimulate(0, operationId, needsRestore), PrepareCreate(0));
  }

  lemma NewOperationId(c: Command, operationId: string, simulated: Option<S.ChainError>, needsRestore: bool)
    requires SpecFor(c).Ok?
    ensures NewOperation(c, operationId, simulated, needsRestore).operationId == operationId
  {}

  class Gateway {
    const store: Store
    const transport: S.Transport
    const feePayer: bool
    const maxAttempts: nat
    ghost var wire: seq<Sent>

    constructor (store: Store, transport: S.Transport, feePayer: bool, maxAttempts: nat)
      ensures this.store == store && this.transport == transport && this.feePayer == feePayer
              && this.maxAttempts == maxAttempts && wire == []
    {
      this.store, this.transport, this.feePayer, this.maxAttempts := store, transport, feePayer, maxAttempts;
      wire := [];
    }

    /** The objects hold what the protocol state says survives a crash. */
    ghost predicate Holds(b: Sys)
      reads this, store, transport
    {
      && b == Now(b) && b.byKey == store.byKey && b.maxAttempts == maxAttempts && b.feePayer == feePayer
      && store.Valid()
    }

    /** The state `b` with the objects' present contents. */
    ghost function Now(b: Sys): Sys
      reads this, store, transport
    {
      b.(ops := store.byId, chain := transport.State(), wire := wire)
    }

    /**
     * Returns the operation under the command's key, or refuses a different payload there, or simulates and stores a
     * new one; an interrupted call stores nothing.
     */
    method Prepare(c: Command, operationId: string, needsRestore: bool, stop: Interruption, ghost b: Sys)
      returns (r: Result<Operation, PrepareError>, ghost trace: seq<Action>)
      requires Holds(b) && 0 !in b.preparing && operationId !in store.byId
      modifies store`byId, store`byKey, store`order
      ensures Run(b, trace) == b.(ops := store.byId, byKey := store.byKey)
      ensures store.Valid()
      ensures r.Err? ==> store.byId == old(store.byId) && store.byKey == old(store.byKey)
      ensures stop.AtLookup? ==> r == Err(Unavailable)
      ensures !stop.AtLookup? ==>
              match LookUp(b, c)
              case Replay(op) => r == Ok(op) && store.byId == old(store.byId) && store.byKey == old(store.byKey)
              case Rejected => r == Err(KeyReused)
              case Fresh =>
                if SpecFor(c).Err? then r == Err(InvalidHash)
                else if !stop.Uninterrupted? then r == Err(Unavailable)
                else if r.Err? then r.error == AlreadyBound
                else
                  && StoredFor(c, operationId, S.Validate(b.chain, SpecFor(c).value), needsRestore, r.value)
                  && r.value == NewOperation(c, operationId, S.Validate(b.chain, SpecFor(c).value), needsRestore)
                  && store.byId == old(store.byId)[operationId := r.value]
                  && r.value.idempotencyKey !in old(store.byKey)
                  && store.byKey == old(store.byKey)[r.value.idempotencyKey := operationId]
    {
      hide SpecFor, S.Validate, Step, CanonicalKey, StoredFor;
      if stop.AtLookup? { return Err(Unavailable), []; }
      var key := CanonicalKey(c);
      var existing := store.FindByIdempotencyKey(key);
      if existing.Some? {
        if existing.value.fingerprint == WithoutClientKey(c) { return Ok(existing.value), []; }
        return Err(KeyReused), [];
      }
      var spec := SpecFor(c);
      if spec.Err? { return Err(InvalidHash), []; }
      if stop.AtSimulate? { return Err(Unavailable), []; }
      var simulated := transport.ValidateCall(spec.value);
      var op := NewOperation(c, operationId, simulated, needsRestore);
      SimulationDecides(c, operationId, simulated, needsRestore);
      PrepareRuns(b, c, operationId, needsRestore);
      NewOperationId(c, operationId, simulated, needsRestore);
      if stop.AtCreate? { return Err(Unavailable), []; }
      var created := store.Create(op);
      trace := PrepareTrace(c, operationId, needsRestore);
      if !created { return Err(AlreadyBound), trace; }
      return Ok(op), trace;
    }

    /** The second half of pollAndConfirm: poll, read back, save the outcome. */
    method Conclude(confirming: Operation, caller: Caller, w: Weather, now: nat, ghost b: Sys)
      returns (r: Result<Operation, ErrorCode>, ghost trace: seq<Action>)
      requires Holds(b) && b.now == now && confirming.operationId in store.byId && confirming.operationId !in b.calls
      requires confirming.txHash.Some? && store.byId[confirming.operationId] == confirming
      modifies store`byId
      ensures Run(At(b, confirming.operationId, caller, Polling(confirming)), trace)
              == Over(Now(b), confirming.operationId, caller, if r.Err? then Some(r.error) else None)
      ensures store.Valid()
      ensures Ended(r, old(store.byId), store.byId, confirming.operationId, AfterConclude(confirming, w, b))
    {
      hide S.Poll, ReadbackMatches, AfterPoll, AfterReadback, Step, MayMove, Over, At;
      var op := confirming;
      var id := op.operationId;
      ghost var s := At(b, id, caller, Polling(op));
      EndedAsItWas(store.byId, id, RPC_ERROR);
      EndedAsItWas(store.byId, id, STORE_ERROR);
      if w.pollThrows {
        WaitFails(b, id, caller, Polling(op), RPC_ERROR);
        RunSnoc(s, [], Fail(id, RPC_ERROR, false));
        return Err(RPC_ERROR), [] + [Fail(id, RPC_ERROR, false)];
      }
      Polled(b, id, caller, op, w.nullLedger);
      RunSnoc(s, [], Advance(id, false, w.nullLedger));
      trace := [] + [Advance(id, false, w.nullLedger)];
      var result := transport.PollTransaction(op.txHash.value, w.nullLedger);
      op := AfterPoll(op, result, now);
      KeepsId(confirming, result, now, ReadbackMatches(transport.State(), op));
      if op.phase == Confirming {
        if w.readbackThrows {
          WaitFails(b, id, caller, ReadingBack(op), RPC_ERROR);
          RunSnoc(s, trace, Fail(id, RPC_ERROR, false));
          return Err(RPC_ERROR), trace + [Fail(id, RPC_ERROR, false)];
        }
        ReadBack(b, id, caller, op);
        RunSnoc(s, trace, Advance(id, false, false));
        trace := trace + [Advance(id, false, false)];
        var ok := ReadbackMatches(transport.State(), op);
        op := AfterReadback(op, ok);
      }
      if w.outcomeSaveThrows {
        WaitFails(b, id, caller, SaveOutcome(op), STORE_ERROR);
        RunSnoc(s, trace, Fail(id, STORE_ERROR, false));
        return Err(STORE_ERROR), trace + [Fail(id, STORE_ERROR, false)];
      }
      OutcomeSaved(b, id, caller, op);
      RunSnoc(s, trace, Advance(id, false, false));
      trace := trace + [Advance(id, false, false)];
      var saved := store.SaveRecord(op);
      return Ok(op), trace;
    }

    method PollAndConfirm(record: Operation, caller: Caller, w: Weather, now: nat, ghost b: Sys)
      returns (r: Result<Operation, ErrorCode>, ghost trace: seq<Action>)
      requires Holds(b) && b.now == now && record.operationId in store.byId && record.operationId !in b.calls
      requires store.byId[record.operationId] == record
      modifies store`byId
      ensures Run(StartPoll(b, record, caller), trace)
              == Over(Now(b), record.operationId, caller, if r.Err? then Some(r.error) else None)
      ensures store.Valid()
      ensures Ended(r, old(store.byId), store.byId, record.operationId, AfterPollAndConfirm(record, w, b))
      ensures r.Ok? ==>
                && record.txHash.Some? && store.byId[record.operationId] == r.value
                && Settles(record.(phase := Confirming), ReceiptOf(b.chain, record.txHash.value), w.nullLedger,
                           b.chain, now, r.value)
    {
      SettlesWhenOk(record, w, b);
      hide Settles, Step, MayMove, Over, At, Ended, AfterConclude;
      var op := record;
      ghost var id, start := op.operationId, StartPoll(b, record, caller);
      ThrowAtOnce(b, id, caller, InvalidTransition);
      EndedAsItWas(store.byId, id, InvalidTransition);
      EndedAsItWas(store.byId, id, STORE_ERROR);
      if op.txHash.None? { return Err(InvalidTransition), []; }
      if !MayMove(op.phase, Confirming) { return Err(InvalidTransition), []; }
      op := op.(phase := Confirming);
      if w.confirmingSaveThrows {
        WaitFails(b, id, caller, SaveConfirming(op), STORE_ERROR);
        RunSnoc(start, [], Fail(id, STORE_ERROR, false));
        return Err(STORE_ERROR), [] + [Fail(id, STORE_ERROR, false)];
      }
      var saved := store.SaveRecord(op);
      ConfirmingSaved(b, record, caller);
      RunSnoc(start, [], Advance(id, false, false));
      PollLooksAtTheChain(op, w, b, Saved(b, op));
      ghost var rest;
      r, rest := Conclude(op, caller, w, now, Saved(b, op));
      EndedLater(r, b.ops, op, store.byId, id, AfterConclude(op, w, b));
      EndedOk(r, b.ops, store.byId, id, AfterConclude(op, w, b));
      RunConcat(start, [] + [Advance(id, false, false)], rest);
      trace := ([] + [Advance(id, false, false)]) + rest;
    }

    /** The catch around a submission: the rescheduled record is saved, unless that fails too. */
    method Retry(op: Operation, stored: Operation, code: ErrorCode, caller: Caller, w: Weather, now: nat, ghost b: Sys)
      returns (r: Result<Operation, ErrorCode>, ghost trace: seq<Action>)
      requires Holds(b) && op.operationId in store.byId && op.operationId !in b.calls
      requires store.byId[op.operationId] == stored
      modifies store`byId
      ensures Run(At(b, op.operationId, caller, SaveRetry(ScheduleRetry(op, now).(errorCode := Some(code)))), trace)
              == Over(Now(b), op.operationId, caller, if r.Err? then Some(r.error) else None)
      ensures store.Valid()
      ensures Ended(r, old(store.byId), store.byId, op.operationId, AfterRetry(stored, op, code, w, now))
    {
      hide Step, Over, At;
      var retry := ScheduleRetry(op, now).(errorCode := Some(code));
      ghost var start := At(b, op.operationId, caller, SaveRetry(retry));
      EndedAsItWas(store.byId, op.operationId, STORE_ERROR);
      if w.retrySaveThrows {
        WaitFails(b, op.operationId, caller, SaveRetry(retry), STORE_ERROR);
        RunSnoc(start, [], Fail(op.operationId, STORE_ERROR, false));
        return Err(STORE_ERROR), [] + [Fail(op.operationId, STORE_ERROR, false)];
      }
      RetrySaved(b, retry, caller);
      RunSnoc(start, [], Advance(op.operationId, false, false));
      var saved := store.SaveRecord(retry);
      return Err(SubmissionFailed), [] + [Advance(op.operationId, false, false)];
    }

    /** The hash of what the network took is saved, then polled for; only a recovery catches a failing save. */
    method Track(signed: Operation, op: Operation, recovery: bool, caller: Caller, w: Weather, now: nat, ghost b: Sys)
      returns (r: Result<Operation, ErrorCode>, ghost trace: seq<Action>)
      requires Holds(b) && b.now == now && op.operationId in store.byId && op.operationId !in b.calls
      requires store.byId[op.operationId] == signed && op.txHash.Some? && op.phase == Submitted
      modifies store`byId
      ensures Run(At(b, op.operationId, caller, SaveSubmitted(op, recovery)), trace)
              == Over(Now(b), op.operationId, caller, if r.Err? then Some(r.error) else None)
      ensures store.Valid()
      ensures Ended(r, old(store.byId), store.byId, op.operationId, AfterTrack(signed, op, recovery, w, b))
    {
      hide Step, StartPoll, Over, At, Ended, MayMove, ScheduleRetry, AfterPollAndConfirm, AfterRetry, Run;
      ghost var id := op.operationId;
      ghost var start, rest := At(b, id, caller, SaveSubmitted(op, recovery)), [];
      RunNothing(start);
      EndedAsItWas(store.byId, id, STORE_ERROR);
      if w.submittedSaveThrows {
        SubmittedSaveFails(b, op, caller, recovery, STORE_ERROR);
        RunSnoc(start, [], Fail(id, STORE_ERROR, false));
        if !recovery { return Err(STORE_ERROR), [] + [Fail(id, STORE_ERROR, false)]; }
        r, rest := Retry(op, signed, STORE_ERROR, caller, w, now, b);
        RunConcat(start, [] + [Fail(id, STORE_ERROR, false)], rest);
        return r, ([] + [Fail(id, STORE_ERROR, false)]) + rest;
      }
      SubmittedSaved(b, op, caller, recovery);
      RunSnoc(start, [], Advance(id, false, false));
      var saved := store.SaveRecord(op);
      PollLooksAtTheChain(op, w, b, Saved(b, op));
      r, rest := PollAndConfirm(op, caller, w, now, Saved(b, op));
      EndedLater(r, b.ops, op, store.byId, id, AfterPollAndConfirm(op, w, b));
      RunConcat(start, [] + [Advance(id, false, false)], rest);
      trace := ([] + [Advance(id, false, false)]) + rest;
    }

    /** The network takes the payload. */
    method Deliver(signed: Operation, recovery: bool, caller: Caller, w: Weather, now: nat, ghost b: Sys)
      returns (r: Result<Operation, ErrorCode>, ghost trace: seq<Action>)
      requires Holds(b) && b.now == now && signed.operationId in store.byId && signed.operationId !in b.calls
      requires store.byId[signed.operationId] == signed && signed.signed.Some?
               && S.Signed(signed.signed.value.payload)
      modifies store`byId, transport, this`wire
      ensures Run(At(b, signed.operationId, caller, Submitting(signed, recovery)), trace)
              == Over(Now(b), signed.operationId, caller, if r.Err? then Some(r.error) else None)
      ensures store.Valid()
      ensures Ended(r, old(store.byId), store.byId, signed.operationId, AfterDeliver(signed, recovery, w, b))
    {
      hide Step, Over, At, Ended, S.Submit, AfterTrack, Run;
      var payload := signed.signed.value.payload;
      ghost var id := signed.operationId;
      ghost var start := At(b, id, caller, Submitting(signed, recovery));
      RunNothing(start);
      Transmitted(b, signed, caller, recovery, w.staysPending);
      RunSnoc(start, [], Advance(id, w.staysPending, false));
      SubmitAnswers(transport.State(), payload, w.staysPending);
      var hash := transport.SubmitPayload(payload, w.staysPending);
      wire := wire + [Sent(Some(id), payload)];
      ghost var b1, rest := Transmit(b, id, payload, w.staysPending), [];
      assert b1 == Now(b);
      r, rest := Track(signed, signed.(txHash := hash, phase := Submitted), recovery, caller, w, now, b1);
      RunConcat(start, [] + [Advance(id, w.staysPending, false)], rest);
      trace := ([] + [Advance(id, w.staysPending, false)]) + rest;
    }

    /** A submission that rejects, whether or not the network took the payload. */
    method Bounce(signed: Operation, recovery: bool, caller: Caller, w: Weather, now: nat, ghost b: Sys)
      returns (r: Result<Operation, ErrorCode>, ghost trace: seq<Action>)
      requires Holds(b) && b.now == now && signed.operationId in store.byId && signed.operationId !in b.calls
      requires store.byId[signed.operationId] == signed && signed.signed.Some?
      modifies store`byId, transport, this`wire
      ensures Run(At(b, signed.operationId, caller, Submitting(signed, recovery)), trace)
              == Over(Now(b), signed.operationId, caller, if r.Err? then Some(r.error) else None)
      ensures store.Valid()
      ensures Ended(r, old(store.byId), store.byId, signed.operationId,
                    AfterRetry(signed, signed, RPC_ERROR, w, b.now))
    {
      hide Step, Over, At, Ended, ScheduleRetry, AfterRetry, S.Submit, Run;
      var payload := signed.signed.value.payload;
      ghost var id := signed.operationId;
      ghost var start := At(b, id, caller, Submitting(signed, recovery));
      RunNothing(start);
      SendFails(b, signed, caller, recovery, w.reached);
      RunSnoc(start, [], Fail(id, RPC_ERROR, w.reached));
      if w.reached && S.Signed(payload) {
        var _ := transport.SubmitPayload(payload, false);
        wire := wire + [Sent(Some(id), payload)];
      }
      ghost var b1, rest := Reached(b, signed, w.reached), [];
      assert b1 == Now(b);
      r, rest := Retry(signed, signed, RPC_ERROR, caller, w, now, b1);
      RunConcat(start, [] + [Fail(id, RPC_ERROR, w.reached)], rest);
      trace := ([] + [Fail(id, RPC_ERROR, w.reached)]) + rest;
    }

    /**
     * From the saved signed payload on: submit it, record the hash, then poll and confirm; a failure keeps it queued.
     */
    method Send(signed: Operation, recovery: bool, caller: Caller, w: Weather, now: nat, ghost b: Sys)
      returns (r: Result<Operation, ErrorCode>, ghost trace: seq<Action>)
      requires Holds(b) && b.now == now && signed.operationId in store.byId && signed.operationId !in b.calls
      requires store.byId[signed.operationId] == signed && signed.signed.Some?
      modifies store`byId, transport, this`wire
      ensures Run(At(b, signed.operationId, caller, Submitting(signed, recovery)), trace)
              == Over(Now(b), signed.operationId, caller, if r.Err? then Some(r.error) else None)
      ensures store.Valid()
      ensures Ended(r, old(store.byId), store.byId, signed.operationId, AfterSend(signed, recovery, w, b))
    {
      hide Over, At, Ended, AfterDeliver, AfterRetry, Run;
      if w.submitThrows || !S.Signed(signed.signed.value.payload) {
        r, trace := Bounce(signed, recovery, caller, w, now, b);
      } else {
        r, trace := Deliver(signed, recovery, caller, w, now, b);
      }
    }

    /** The write-ahead: the signed record is stored before its payload goes out. */
    method SaveAndSend(op: Operation, caller: Caller, w: Weather, now: nat, ghost b: Sys)
      returns (r: Result<Operation, ErrorCode>, ghost trace: seq<Action>)
      requires Holds(b) && b.now == now && op.operationId in store.byId && op.operationId !in b.calls
      requires op.signed.Some?
      modifies store`byId, transport, this`wire
      ensures Run(At(b, op.operationId, caller, SaveSigned(op)), trace)
              == Over(Now(b), op.operationId, caller, if r.Err? then Some(r.error) else None)
      ensures store.Valid()
      ensures Ended(r, old(store.byId), store.byId, op.operationId,
                    if w.signedSaveThrows then Outcome(old(store.byId)[op.operationId], Some(STORE_ERROR))
                    else AfterSend(op, false, w, Saved(b, op)))
    {
      hide Step, Over, At, S.Submit, S.Signed, Ended, AfterSend;
      ghost var id := op.operationId;
      ghost var start := At(b, id, caller, SaveSigned(op));
      EndedAsItWas(store.byId, id, STORE_ERROR);
      if w.signedSaveThrows {
        WaitFails(b, id, caller, SaveSigned(op), STORE_ERROR);
        RunSnoc(start, [], Fail(id, STORE_ERROR, false));
        return Err(STORE_ERROR), [] + [Fail(id, STORE_ERROR, false)];
      }
      SignedSaved(b, op, caller);
      RunSnoc(start, [], Advance(id, false, false));
      var saved := store.SaveRecord(op);
      ghost var rest;
      r, rest := Send(op, false, caller, w, now, Saved(b, op));
      EndedLater(r, b.ops, op, store.byId, id, AfterSend(op, false, w, Saved(b, op)));
      RunConcat(start, [] + [Advance(id, false, false)], rest);
      trace := ([] + [Advance(id, false, false)]) + rest;
    }

    /**
     * A smart wallet's envelope goes out as assembled with its signature, and only with a fee payer; anyone else's as
     * signed.
     */
    method CheckSignature(op: Operation, payload: S.Payload, signer: Address, assembled: S.Payload, ghost b: Sys)
      returns (final: Option<S.Payload>)
      requires Holds(b)
      ensures final == FinalPayload(b, op, payload, signer, assembled)
    {
      if op.prepared.None? { return None; }
      if signer != "" && signer[0] == 'C' {
        if !feePayer || !SignedMatches(op.prepared.value, assembled) { return None; }
        return Some(assembled);
      }
      if !SignedMatches(op.prepared.value, payload) { return None; }
      return Some(payload);
    }

    /**
     * A fresh signature is checked against the prepared call and saved before it is sent; a signed record resends its
     * stored payload.
     */
    method SubmitSigned(id: string, payload: S.Payload, signer: Address, assembled: S.Payload, caller: Caller,
                        w: Weather, now: nat, ghost b: Sys)
      returns (r: Result<Operation, ErrorCode>, ghost trace: seq<Action>)
      requires Holds(b) && b.now == now && id in store.byId && id !in b.calls
      modifies store`byId, transport, this`wire
      ensures Run(if w.readThrows then Over(b, id, caller, Some(STORE_ERROR))
                  else StartSubmit(b, id, payload, signer, assembled, caller), trace)
              == Over(Now(b), id, caller, if r.Err? then Some(r.error) else None)
      ensures store.Valid()
      ensures Ended(r, old(store.byId), store.byId, id,
                    AfterSubmit(old(store.byId[id]), payload, signer, assembled, w, b))
    {
      hide Step, Over, At, S.Submit, FinalPayload, S.Signed, Ended, StartSubmit, AfterSend, Saved, MayMove, Run, Report;
      RunNothing(if w.readThrows then Over(b, id, caller, Some(STORE_ERROR))
                 else StartSubmit(b, id, payload, signer, assembled, caller));
      EndedAsItWas(store.byId, id, STORE_ERROR);
      EndedAsItWas(store.byId, id, InvalidTransition);
      EndedAsItWas(store.byId, id, UnauthorizedPayload);
      if w.readThrows { return Err(STORE_ERROR), []; }
      var op := store.byId[id];
      HowSubmitStarts(b, id, payload, signer, assembled, caller);
      if op.phase != AwaitingSignature && op.phase != Signed { return Err(InvalidTransition), []; }
      if op.phase == Signed {
        if op.signed != Some(SignedPayload(payload, signer)) { return Err(UnauthorizedPayload), []; }
        r, trace := Send(op, true, caller, w, now, b);
        return;
      }
      if signer != op.actorAddress { return Err(UnauthorizedPayload), []; }
      var final := CheckSignature(op, payload, signer, assembled, b);
      if final.None? { return Err(UnauthorizedPayload), []; }
      op := op.(signed := Some(SignedPayload(final.value, signer)), phase := Signed);
      r, trace := SaveAndSend(op, caller, w, now, b);
    }

    method Reconcile(id: string, caller: Caller, w: Weather, now: nat, ghost b: Sys)
      returns (r: Result<Operation, ErrorCode>, ghost trace: seq<Action>)
      requires Holds(b) && b.now == now && id in store.byId && id !in b.calls
      modifies store`byId
      ensures Run(if w.readThrows then Over(b, id, caller, Some(STORE_ERROR)) else StartReconcile(b, id, caller), trace)
              == Over(Now(b), id, caller, if r.Err? then Some(r.error) else None)
      ensures store.Valid()
      ensures Ended(r, old(store.byId), store.byId, id, AfterReconcile(old(store.byId[id]), w, b))
    {
      hide Step, StartPoll, At, AfterPollAndConfirm, Ended;
      EndedAsItWas(store.byId, id, STORE_ERROR);
      if w.readThrows { return Err(STORE_ERROR), []; }
      var record := store.byId[id];
      if !Reconcilable(record.phase) { return Ok(record), []; }
      r, trace := PollAndConfirm(record, caller, w, now, b);
    }
  }

  /** An answer that is no error is a record that its receipt has settled. */
  lemma SettlesWhenOk(record: Operation, w: Weather, b: Sys)
    ensures AfterPollAndConfirm(record, w, b).error.None? ==>
              && record.txHash.Some?
              && Settles(record.(phase := Confirming), ReceiptOf(b.chain, record.txHash.value), w.nullLedger, b.chain,
                         b.now, AfterPollAndConfirm(record, w, b).record)
  {
    hide ReadbackMatches, MayMove, BackoffMs, Settles;
    if !PollRejects(record, w, b) { PollAndConfirmSettles(record, w, b); }
  }

  lemma RunNothing(s: Sys)
    ensures Run(s, []) == s
  {}

  lemma KeepsId(op: Operation, result: S.PollResult, now: nat, ok: bool)
    ensures AfterPoll(op, result, now).operationId == op.operationId
            && AfterReadback(AfterPoll(op, result, now), ok).operationId == op.operationId
  {}
}
