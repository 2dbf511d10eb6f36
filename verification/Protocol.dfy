/**
 * The chain-operation protocol as a state machine.
 *
 * A state is what survives a crash (the stored operations, by value, and the chain) together with
 * what does not (calls in flight, the worker's claimed copies). Every stretch of code between two
 * awaits is one action; calls on different operations interleave freely, and at most one call is in
 * flight on any one operation. Anyone may submit anything else to the same chain.
 */
module Protocol {
  import opened Common
  import opened Commands
  import opened Operations
  import S = SimulatedChain

  datatype Caller = Api | Worker

  /** Where a gateway call (or the worker's error handler around it) is waiting, with its own copy of the record. */
  datatype Frame =
    | SaveSigned(op: Operation)
    | Submitting(op: Operation, recovery: bool)
    | SaveSubmitted(op: Operation, recovery: bool)
    | SaveConfirming(op: Operation)
    | Polling(op: Operation)
    | ReadingBack(op: Operation)
    | SaveOutcome(op: Operation)
    | SaveRetry(op: Operation)
    | HandlerRead(code: ErrorCode)
    | HandlerSave(op: Operation)

  datatype InFlight = InFlight(caller: Caller, frame: Frame)

  /** A prepare call past its idempotency lookup: about to simulate, or about to create. */
  datatype Preparing = Simulating(command: Command) | Creating(op: Operation)

  /** One submission the network has seen; `sender` is the operation whose submitSigned sent it. */
  datatype Sent = Sent(sender: Option<string>, payload: S.Payload)

  /** The copy of an operation that a worker was handed; every worker holds its own. */
  datatype Copy = Copy(workerId: string, operationId: string)

  datatype Sys = Sys(
    now: nat, maxAttempts: nat, feePayer: bool,
    ops: map<string, Operation>, byKey: map<string, string>, chain: S.Chain,
    calls: map<string, InFlight>, claimed: map<Copy, Operation>, preparing: map<nat, Preparing>,
    wire: seq<Sent>)

  datatype Action =
    | Tick(ms: nat)
    | PrepareStart(ticket: nat, command: Command)
    | PrepareSimulate(ticket: nat, operationId: string, needsRestore: bool)
    | PrepareCreate(ticket: nat)
    | PrepareAbandon(ticket: nat)
    | SubmitSigned(operationId: string, payload: S.Payload, signer: Address, assembled: S.Payload)
    | Reconcile(operationId: string)
    | Claim(operationId: string, workerId: string)
    | WorkerProcess(operationId: string, workerId: string)
    | WorkerMisses(operationId: string, workerId: string, code: ErrorCode)
    | WorkerForgets(operationId: string, workerId: string)
    | Advance(operationId: string, staysPending: bool, nullLedger: bool)
    | Fail(operationId: string, code: ErrorCode, reached: bool)
    | Crash(operationId: string)
    | Foreign(payload: S.Payload, staysPending: bool)

  function Init(maxAttempts: nat, feePayer: bool): Sys {
    Sys(0, maxAttempts, feePayer, map[], map[], S.Genesis(), map[], map[], map[], [])
  }

  // ----- prepare -----

  datatype Lookup = Fresh | Replay(op: Operation) | Rejected

  /** The idempotency lookup at the head of prepare. */
  function LookUp(s: Sys, c: Command): Lookup {
    var key := CanonicalKey(c);
    if key !in s.byKey || s.byKey[key] !in s.ops then Fresh
    else
      var existing := s.ops[s.byKey[key]];
      if existing.fingerprint == WithoutClientKey(c) then Replay(existing) else Rejected
  }

  function NewOperation(c: Command, operationId: string, simulated: Option<S.ChainError>, needsRestore: bool): Operation
    requires SpecFor(c).Ok?
  {
    var base :=
      Operation(operationId, CanonicalKey(c), AwaitingSignature, None, None, None, c.actorAddress, WithoutClientKey(c),
                          SubjectKey(c), None, None, None, 0, None);
    if simulated.Some? then base.(phase := FailedTerminal, errorCode := Some(SimulationFailed(simulated.value)))
    else base.(phase := if needsRestore then Restoring else AwaitingSignature,
               prepared := Some(S.Envelope(SpecFor(c).value, None)), expected := Some(ExpectedFor(c)))
  }

  /**
   * What prepare stores for a command: refused by the chain, it has failed for good with the chain's error and
   * nothing to sign; otherwise it waits for a signature, or for a restore when one was asked for, with the
   * unsigned envelope of its call.
   */
  ghost predicate StoredFor(c: Command, id: string, refusal: Option<S.ChainError>, needsRestore: bool, op: Operation)
    requires SpecFor(c).Ok?
  {
    && op.operationId == id && op.idempotencyKey == CanonicalKey(c) && op.subjectKey == SubjectKey(c)
    && op.actorAddress == c.actorAddress && op.fingerprint == c.(idempotencyKey := op.fingerprint.idempotencyKey)
    && op.signed.None? && op.txHash.None? && op.ledger.None? && op.attemptCount == 0 && op.nextRetryAt.None?
    && if refusal.Some? then
         && op.phase == FailedTerminal && op.errorCode == Some(SimulationFailed(refusal.value))
         && op.prepared.None? && op.expected.None?
       else
         && op.phase == (if needsRestore then Restoring else AwaitingSignature) && op.errorCode.None?
         && op.prepared == Some(S.Envelope(SpecFor(c).value, None)) && op.expected == Some(ExpectedFor(c))
  }

  lemma SimulationDecides(c: Command, id: string, refusal: Option<S.ChainError>, needsRestore: bool)
    requires SpecFor(c).Ok?
    ensures StoredFor(c, id, refusal, needsRestore, NewOperation(c, id, refusal, needsRestore))
  {
    hide SpecFor, CanonicalKey, SubjectKey, ExpectedFor;
  }

  function StepPrepare(s: Sys, a: Action): Sys
    requires a.PrepareStart? || a.PrepareSimulate? || a.PrepareCreate? || a.PrepareAbandon?
  {
    match a
    case PrepareStart(t, c) =>
      if t in s.preparing || !LookUp(s, c).Fresh? || SpecFor(c).Err? then s
      else s.(preparing := s.preparing[t := Simulating(c)])
    case PrepareSimulate(t, id, needsRestore) =>
      if t !in s.preparing || !s.preparing[t].Simulating? || SpecFor(s.preparing[t].command).Err? then s
      else
        var c := s.preparing[t].command;
        s.(preparing := s.preparing[t :=
                                    Creating(NewOperation(c, id, S.Validate(s.chain, SpecFor(c).value), needsRestore))])
    case PrepareCreate(t) =>
      if t !in s.preparing || !s.preparing[t].Creating? then s
      else
        var op := s.preparing[t].op;
        var rest := s.(preparing := s.preparing - {t});
        // The store refuses a bound key; the random id is taken never to repeat.
        if op.idempotencyKey in s.byKey || op.operationId in s.ops then rest
        else rest.(ops := s.ops[op.operationId := op], byKey := s.byKey[op.idempotencyKey := op.operationId])
    case PrepareAbandon(t) => s.(preparing := s.preparing - {t})
  }

  // ----- gateway calls -----

  function At(s: Sys, id: string, caller: Caller, frame: Frame): Sys {
    s.(calls := s.calls[id := InFlight(caller, frame)])
  }

  function Returns(s: Sys, id: string): Sys {
    s.(calls := s.calls - {id})
  }

  /** The call rejects: the worker's error handler takes over, anyone else just sees the error. */
  function Throws(s: Sys, id: string, caller: Caller, code: ErrorCode): Sys {
    if caller == Worker then At(s, id, caller, HandlerRead(code)) else Returns(s, id)
  }

  function Save(s: Sys, op: Operation): Sys {
    if op.operationId in s.ops then s.(ops := s.ops[op.operationId := op]) else s
  }

  /** The payload that goes to the network: as signed by a classic account, or assembled for a smart wallet. */
  function FinalPayload(s: Sys, op: Operation, payload: S.Payload, signer: Address,
                        assembled: S.Payload): Option<S.Payload>
  {
    if op.prepared.None? then None
    else if signer != "" && signer[0] == 'C' then
      if s.feePayer && SignedMatches(op.prepared.value, assembled) then Some(assembled) else None
    else if SignedMatches(op.prepared.value, payload) then Some(payload)
    else None
  }

  function StartSubmit(s: Sys, id: string, payload: S.Payload, signer: Address, assembled: S.Payload,
                       caller: Caller): Sys
    requires id in s.ops
  {
    var op := s.ops[id];
    if op.phase == Signed then
      if op.signed != Some(SignedPayload(payload, signer)) then Throws(s, id, caller, UnauthorizedPayload)
      else At(s, id, caller, Submitting(op, true))
    else if op.phase != AwaitingSignature then Throws(s, id, caller, InvalidTransition)
    else if signer != op.actorAddress then Throws(s, id, caller, UnauthorizedPayload)
    else
      var final := FinalPayload(s, op, payload, signer, assembled);
      if final.None? then Throws(s, id, caller, UnauthorizedPayload)
      else At(s, id, caller, SaveSigned(op.(signed := Some(SignedPayload(final.value, signer)), phase := Signed)))
  }

  /** The head of pollAndConfirm. */
  function StartPoll(s: Sys, op: Operation, caller: Caller): Sys {
    if op.txHash.None? then Throws(s, op.operationId, caller, InvalidTransition)
    else if !MayMove(op.phase, Confirming) then Throws(s, op.operationId, caller, InvalidTransition)
    else At(s, op.operationId, caller, SaveConfirming(op.(phase := Confirming)))
  }

  function StartReconcile(s: Sys, id: string, caller: Caller): Sys
    requires id in s.ops && s.ops[id].operationId == id
  {
    if !Reconcilable(s.ops[id].phase) then s else StartPoll(s, s.ops[id], caller)
  }

  predicate Actionable(s: Sys, op: Operation) {
    && (op.phase == Signed || Reconcilable(op.phase))
    && op.attemptCount < s.maxAttempts
    && (op.nextRetryAt.Some? ==> op.nextRetryAt.value <= s.now)
  }

  /** The actions that put a call in flight, or hand out or drop a worker's copy. */
  predicate Starts(a: Action) {
    a.SubmitSigned? || a.Reconcile? || a.Claim? || a.WorkerProcess? || a.WorkerMisses? || a.WorkerForgets?
  }

  function StepStart(s: Sys, a: Action): Sys
    requires Starts(a)
  {
    var id := a.operationId;
    if a.WorkerForgets? then s.(claimed := s.claimed - {Copy(a.workerId, id)})
    else if id !in s.ops || s.ops[id].operationId != id || id in s.calls then s
    else match a
      case SubmitSigned(_, payload, signer, assembled) => StartSubmit(s, id, payload, signer, assembled, Api)
      case Reconcile(_) => StartReconcile(s, id, Api)
      case Claim(_, w) => if Actionable(s, s.ops[id]) then s.(claimed := s.claimed[Copy(w, id) := s.ops[id]]) else s
      // The gateway's own read of the record rejects.
      case WorkerMisses(_, w, code) =>
        if Copy(w, id) !in s.claimed then s
        else Throws(s.(claimed := s.claimed - {Copy(w, id)}), id, Worker, code)
      case WorkerProcess(_, w) =>
        if Copy(w, id) !in s.claimed then s
        else
          var copy := s.claimed[Copy(w, id)];
          var t := s.(claimed := s.claimed - {Copy(w, id)});
          if copy.phase != Signed then StartReconcile(t, id, Worker)
          else if copy.signed.None? then Throws(t, id, Worker, InvalidTransition)
          else StartSubmit(t, id, copy.signed.value.payload, copy.signed.value.signer, copy.signed.value.payload,
                           Worker)
  }

  /** transport.submit of a signed payload on behalf of an operation. */
  function Transmit(s: Sys, id: string, payload: S.Payload, staysPending: bool): Sys {
    s.(chain := S.Submit(s.chain, payload, staysPending).0, wire := s.wire + [Sent(Some(id), payload)])
  }

  /** What the call was waiting for arrives, and it runs on to its next await. */
  function AdvanceCall(s: Sys, id: string, staysPending: bool, nullLedger: bool): Sys
    requires id in s.calls
  {
    var caller := s.calls[id].caller;
    match s.calls[id].frame
    case SaveSigned(op) => At(Save(s, op), id, caller, Submitting(op, false))
    case Submitting(op, recovery) =>
      if op.signed.None? || !S.Signed(op.signed.value.payload) then s
      else
        var payload := op.signed.value.payload;
        At(Transmit(s, id, payload, staysPending), id, caller,
           SaveSubmitted(op.(txHash := Some(S.Sha256(payload)), phase := Submitted), recovery))
    case SaveSubmitted(op, _) => StartPoll(Save(s, op), op, caller)
    case SaveConfirming(op) => At(Save(s, op), id, caller, Polling(op))
    case Polling(op) =>
      if op.txHash.None? then s
      else
        var next := AfterPoll(op, S.Poll(s.chain, op.txHash.value, nullLedger), s.now);
        At(s, id, caller, if next.phase == Confirming then ReadingBack(next) else SaveOutcome(next))
    case ReadingBack(op) => At(s, id, caller, SaveOutcome(AfterReadback(op, ReadbackMatches(s.chain, op))))
    case SaveOutcome(op) => Returns(Save(s, op), id)
    case SaveRetry(op) => Throws(Save(s, op), id, caller, SubmissionFailed)
    case HandlerRead(code) =>
      if id !in s.ops then Returns(s, id)
      else
        var write := AfterWorkerError(s.ops[id], code, s.now, s.maxAttempts);
        if write.None? then Returns(s, id) else At(s, id, caller, HandlerSave(write.value))
    case HandlerSave(op) => Returns(Save(s, op), id)
  }

  /** What the call was waiting for fails; a failing submission may still have reached the network. */
  function FailCall(s: Sys, id: string, code: ErrorCode, reached: bool): Sys
    requires id in s.calls
  {
    var caller := s.calls[id].caller;
    match s.calls[id].frame
    case Submitting(op, _) =>
      var sent := if reached && op.signed.Some? && S.Signed(op.signed.value.payload)
                  then Transmit(s, id, op.signed.value.payload, false) else s;
      At(sent, id, caller, SaveRetry(ScheduleRetry(op, s.now).(errorCode := Some(code))))
    case SaveSubmitted(op, recovery) =>
      if recovery then At(s, id, caller, SaveRetry(ScheduleRetry(op, s.now).(errorCode := Some(code))))
        else Throws(s, id, caller, code)
    case HandlerRead(_) => Returns(s, id)
    case HandlerSave(_) => Returns(s, id)
    case _ => Throws(s, id, caller, code)
  }

  function Step(s: Sys, a: Action): Sys {
    match a
    case Tick(ms) => s.(now := s.now + ms)
    case PrepareStart(_, _) => StepPrepare(s, a)
    case PrepareSimulate(_, _, _) => StepPrepare(s, a)
    case PrepareCreate(_) => StepPrepare(s, a)
    case PrepareAbandon(_) => StepPrepare(s, a)
    case Advance(id, staysPending, nullLedger) =>
      if id in s.calls then AdvanceCall(s, id, staysPending, nullLedger) else s
    case Fail(id, code, reached) => if id in s.calls then FailCall(s, id, code, reached) else s
    case Crash(id) => Returns(s, id)
    case Foreign(payload, staysPending) =>
      if !S.Signed(payload) || !S.HexIds(payload.call) then s
      else s.(chain := S.Submit(s.chain, payload, staysPending).0, wire := s.wire + [Sent(None, payload)])
    case _ => StepStart(s, a)
  }

  function Run(s: Sys, actions: seq<Action>): Sys
    decreases |actions|
  {
    if actions == [] then s else Run(Step(s, actions[0]), actions[1..])
  }

  lemma {:induction false} RunSnoc(s: Sys, run: seq<Action>, a: Action)
    ensures Run(s, run + [a]) == Step(Run(s, run), a)
    decreases |run|
  {
    hide Step;
    if run == [] {
      assert run + [a] == [a] && [a][1..] == [];
    } else {
      assert (run + [a])[1..] == run[1..] + [a];
      RunSnoc(Step(s, run[0]), run[1..], a);
    }
  }

  lemma {:induction false} RunConcat(s: Sys, a: seq<Action>, b: seq<Action>)
    ensures Run(s, a + b) == Run(Run(s, a), b)
    decreases |a|
  {
    hide Step;
    if a == [] {
      assert a + b == b;
    } else {
      assert (a + b)[1..] == a[1..] + b;
      RunConcat(Step(s, a[0]), a[1..], b);
    }
  }
}
