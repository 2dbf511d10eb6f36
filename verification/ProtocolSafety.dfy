/** What the protocol guarantees over every run: the main theorems. */
module ProtocolSafety {
  import opened Common
  import opened Commands
  import opened Operations
  import opened Protocol
  import opened ProtocolInvariant
  import opened ProtocolSteps
  import S = SimulatedChain

  // ----- one step, seen from the store -----

  /** How one action may change one stored record. */
  ghost predicate SavedOver(s: Sys, t: Sys, id: string)
    requires id in s.ops
  {
    id in t.ops && (t.ops[id] == s.ops[id] || Evolves(s.maxAttempts, s.ops[id], t.ops[id]))
  }

  lemma SaveIsOneRecord(s: Sys, id: string, op: Operation, other: string)
    requires WriteOk(s, id, op) && other in s.ops
    ensures SavedOver(s, Save(s, op), other)
  {}

  predicate Saving(f: Frame) {
    f.SaveSigned? || f.SaveSubmitted? || f.SaveConfirming? || f.SaveOutcome? || f.SaveRetry? || f.HandlerSave?
  }

  /** Nothing stored or sent, and the same attempt limit. */
  predicate Quiet(s: Sys, t: Sys) {
    t.ops == s.ops && t.wire == s.wire && t.maxAttempts == s.maxAttempts
  }

  lemma ThrowsOps(s: Sys, id: string, caller: Caller, code: ErrorCode)
    ensures Quiet(s, Throws(s, id, caller, code))
  {}

  /** Starting to poll, throwing or submitting leaves store and wire alone. */
  lemma StartPollOps(s: Sys, op: Operation, caller: Caller)
    ensures Quiet(s, StartPoll(s, op, caller))
  {}

  lemma StartSubmitOps(s: Sys, id: string, payload: S.Payload, signer: Address, assembled: S.Payload, caller: Caller)
    requires id in s.ops
    ensures Quiet(s, StartSubmit(s, id, payload, signer, assembled, caller))
  {
    hide FinalPayload, Throws;
    ThrowsOps(s, id, caller, UnauthorizedPayload);
    ThrowsOps(s, id, caller, InvalidTransition);
  }

  /** Only a call waiting for a save writes the store, and it writes its own record. */
  lemma AdvanceOps(s: Sys, id: string, staysPending: bool, nullLedger: bool)
    requires id in s.calls
    ensures var f := s.calls[id].frame;
            && AdvanceCall(s, id, staysPending, nullLedger).ops == (if Saving(f) then Save(s, f.op).ops else s.ops)
            && AdvanceCall(s, id, staysPending, nullLedger).maxAttempts == s.maxAttempts
  {
    hide S.Signed, S.Poll, AfterPoll, AfterReadback, AfterWorkerError, ReadbackMatches, StartPoll, Save, Throws,
         Transmit;
    var f := s.calls[id].frame;
    if Saving(f) {
      SaveWire(s, f.op);
    }
    if f.SaveRetry? {
      ThrowsOps(Save(s, f.op), id, s.calls[id].caller, SubmissionFailed);
    }
    if f.Submitting? && f.op.signed.Some? {
      TransmitOps(s, id, f.op.signed.value.payload, staysPending);
    }
    if s.calls[id].frame.SaveSubmitted? {
      StartPollOps(Save(s, s.calls[id].frame.op), s.calls[id].frame.op, s.calls[id].caller);
    }
  }

  lemma TransmitOps(s: Sys, id: string, payload: S.Payload, staysPending: bool)
    ensures Transmit(s, id, payload, staysPending).ops == s.ops
            && Transmit(s, id, payload, staysPending).maxAttempts == s.maxAttempts
    ensures Transmit(s, id, payload, staysPending).wire == s.wire + [Sent(Some(id), payload)]
  {}

  lemma FailOps(s: Sys, id: string, code: ErrorCode, reached: bool)
    requires id in s.calls
    ensures FailCall(s, id, code, reached).ops == s.ops && FailCall(s, id, code, reached).maxAttempts == s.maxAttempts
  {
    hide S.Signed, ScheduleRetry, Transmit, Throws;
    var f := s.calls[id].frame;
    ThrowsOps(s, id, s.calls[id].caller, code);
    if f.Submitting? && f.op.signed.Some? {
      TransmitOps(s, id, f.op.signed.value.payload, false);
    }
  }

  lemma StartOps(s: Sys, a: Action)
    requires Starts(a)
    ensures Quiet(s, StepStart(s, a))
  {
    hide StartSubmit, StartPoll, Actionable, Reconcilable, Throws;
    var id := a.operationId;
    if id in s.ops && s.ops[id].operationId == id && id !in s.calls {
      match a
      case SubmitSigned(_, payload, signer, assembled) => StartSubmitOps(s, id, payload, signer, assembled, Api);
      case Reconcile(_) => StartPollOps(s, s.ops[id], Api);
      case WorkerMisses(_, w, code) => ThrowsOps(s.(claimed := s.claimed - {Copy(w, id)}), id, Worker, code);
      case WorkerProcess(_, w) =>
        var t := s.(claimed := s.claimed - {Copy(w, id)});
        ThrowsOps(t, id, Worker, InvalidTransition);
        StartPollOps(t, s.ops[id], Worker);
        if Copy(w, id) in s.claimed && s.claimed[Copy(w, id)].signed.Some? {
          var signed := s.claimed[Copy(w, id)].signed.value;
          StartSubmitOps(t, id, signed.payload, signed.signer, signed.payload, Worker);
        }
      case _ =>
    }
  }

  lemma AdvanceSaves(s: Sys, id: string, staysPending: bool, nullLedger: bool, other: string)
    requires Inv(s) && id in s.calls && other in s.ops
    ensures SavedOver(s, AdvanceCall(s, id, staysPending, nullLedger), other)
  {
    hide Inv, RestOk, StoredOk, WriteOk, AdvanceCall, Evolves;
    Enter(s, id);
    AdvanceOps(s, id, staysPending, nullLedger);
    if Saving(s.calls[id].frame) {
      SaveIsOneRecord(s, id, s.calls[id].frame.op, other);
    }
  }

  lemma PrepareOps(s: Sys, a: Action, other: string)
    requires (a.PrepareStart? || a.PrepareSimulate? || a.PrepareCreate? || a.PrepareAbandon?) && other in s.ops
    ensures other in StepPrepare(s, a).ops && StepPrepare(s, a).ops[other] == s.ops[other]
  {}

  lemma StepSaves(s: Sys, a: Action, other: string)
    requires Inv(s) && other in s.ops
    ensures SavedOver(s, Step(s, a), other)
  {
    hide Inv, StepPrepare, StepStart, AdvanceCall, FailCall, S.Submit, Evolves;
    match a
    case Tick(_) =>
    case PrepareStart(_, _) => PrepareOps(s, a, other);
    case PrepareSimulate(_, _, _) => PrepareOps(s, a, other);
    case PrepareCreate(_) => PrepareOps(s, a, other);
    case PrepareAbandon(_) => PrepareOps(s, a, other);
    case Advance(id, staysPending, nullLedger) => if id in s.calls {
      AdvanceSaves(s, id, staysPending, nullLedger, other);
    }
    case Fail(id, code, reached) => if id in s.calls { FailOps(s, id, code, reached); }
    case Crash(_) =>
    case Foreign(_, _) =>
    case _ => StartOps(s, a);
  }

  lemma MovesAreTransitions(from: Phase)
    ensures Moves(from) <= Transitions(from)
  {}

  lemma {:induction false} LimitIsConstant(s: Sys, run: seq<Action>)
    ensures Run(s, run).maxAttempts == s.maxAttempts
    decreases |run|
  {
    hide Step;
    if run != [] {
      StepKeepsLimit(s, run[0]);
      LimitIsConstant(Step(s, run[0]), run[1..]);
    }
  }

  lemma StepKeepsLimit(s: Sys, a: Action)
    ensures Step(s, a).maxAttempts == s.maxAttempts
  {
    hide StepPrepare, StepStart, AdvanceCall, FailCall, S.Submit, S.Signed;
    match a
    case Tick(_) =>
    case PrepareStart(_, _) => PrepareWire(s, a);
    case PrepareSimulate(_, _, _) => PrepareWire(s, a);
    case PrepareCreate(_) => PrepareWire(s, a);
    case PrepareAbandon(_) => PrepareWire(s, a);
    case Advance(id, staysPending, nullLedger) => if id in s.calls { AdvanceOps(s, id, staysPending, nullLedger); }
    case Fail(id, code, reached) => if id in s.calls { FailOps(s, id, code, reached); }
    case Crash(_) =>
    case Foreign(_, _) =>
    case _ => StartOps(s, a);
  }

  /**
   * Every saved phase change is an edge of the transition table or no change, unless it is the worker
   * giving up with more attempts than allowed; terminal records are never written again, and a
   * signature or transaction hash once saved is never replaced.
   */
  lemma SavedChangesAreLegal(maxAttempts: nat, feePayer: bool, run: seq<Action>, next: Action, id: string)
    requires id in Run(Init(maxAttempts, feePayer), run).ops
    ensures var s := Run(Init(maxAttempts, feePayer), run);
            var t := Step(s, next);
            && id in t.ops
            && var before, after := s.ops[id], t.ops[id];
            && (MayMove(before.phase, after.phase) || GivenUp(maxAttempts, after))
            && (IsTerminal(before.phase) ==> after == before)
            && (before.signed.Some? ==> after.signed == before.signed)
            && (before.txHash.Some? ==> after.txHash == before.txHash)
            && after.fingerprint == before.fingerprint && after.idempotencyKey == before.idempotencyKey
  {
    hide Step;
    var s := Run(Init(maxAttempts, feePayer), run);
    InitInv(maxAttempts, feePayer);
    RunKeeps(Init(maxAttempts, feePayer), run);
    LimitIsConstant(Init(maxAttempts, feePayer), run);
    StepSaves(s, next, id);
    MovesAreTransitions(s.ops[id].phase);
  }

  predicate Stuck(p: Phase) {
    p == FailedRetryable || p == Restoring || p == FailedTerminal
  }

  /**
   * The table lets failed_retryable and restoring recover, but nothing in the gateway or the worker
   * makes those moves: an operation that reaches either phase never confirms, in any run.
   */
  lemma {:induction false} RetryableNeverConfirms(s: Sys, later: seq<Action>, id: string)
    requires Inv(s) && id in s.ops && Stuck(s.ops[id].phase)
    ensures id in Run(s, later).ops && Stuck(Run(s, later).ops[id].phase)
    decreases |later|
  {
    hide Inv, Step;
    if later != [] {
      StepSaves(s, later[0], id);
      StepKeeps(s, later[0]);
      RetryableNeverConfirms(Step(s, later[0]), later[1..], id);
    }
  }

  /** The per-phase record invariant, in every reachable state. */
  lemma RecordsMatchTheirPhase(maxAttempts: nat, feePayer: bool, run: seq<Action>, id: string)
    requires id in Run(Init(maxAttempts, feePayer), run).ops
    ensures var op := Run(Init(maxAttempts, feePayer), run).ops[id];
            && PhaseOk(op)
            && (op.signed.Some? ==> op.signed.value.signer == op.actorAddress && S.Signed(op.signed.value.payload)
                                    && Ok(op.signed.value.payload.call) == SpecFor(op.fingerprint))
            && (op.txHash.Some? ==> op.signed.Some? && op.txHash.value == S.Sha256(op.signed.value.payload))
  {
    InitInv(maxAttempts, feePayer);
    RunKeeps(Init(maxAttempts, feePayer), run);
    assert StoredOk(Run(Init(maxAttempts, feePayer), run), id);
  }

  // ----- confirmed means on chain, for ever -----

  lemma {:induction false} TerminalStays(s: Sys, later: seq<Action>, id: string)
    requires Inv(s) && id in s.ops && IsTerminal(s.ops[id].phase)
    ensures id in Run(s, later).ops && Run(s, later).ops[id] == s.ops[id]
    decreases |later|
  {
    hide Inv, Step;
    if later != [] {
      StepSaves(s, later[0], id);
      StepKeeps(s, later[0]);
      TerminalStays(Step(s, later[0]), later[1..], id);
    }
  }

  /**
   * In every run, with any interleaving, crashes, failures and foreign submissions: a confirmed
   * operation has its matching contract fact on the chain, written for issue and revoke by the very
   * submission that closed in the operation's ledger with the operation's own payload; and in every
   * later state the record is the same and so is the fact.
   */
  lemma ConfirmedIsOnChainForEver(maxAttempts: nat, feePayer: bool, run: seq<Action>, later: seq<Action>, id: string)
    requires var s := Run(Init(maxAttempts, feePayer), run); id in s.ops && s.ops[id].phase == Confirmed
    ensures var s := Run(Init(maxAttempts, feePayer), run);
            var t := Run(s, later);
            && id in t.ops && t.ops[id] == s.ops[id]
            && Evidence(s.chain, s.wire, s.ops[id]) && Evidence(t.chain, t.wire, s.ops[id])
  {
    hide Evidence, Step;
    var s := Run(Init(maxAttempts, feePayer), run);
    InitInv(maxAttempts, feePayer);
    RunKeeps(Init(maxAttempts, feePayer), run);
    RunKeeps(s, later);
    TerminalStays(s, later, id);
    assert StoredOk(s, id) && StoredOk(Run(s, later), id);
  }

  /** The submission that closed in a record's ledger is the one that wrote it, and it is the only one to do so. */
  lemma ConfirmingSubmissionWroteTheRecord(s: Sys, id: string)
    requires Inv(s) && id in s.ops && s.ops[id].phase == Confirmed && !s.ops[id].fingerprint.RegisterEntity?
    ensures var op := s.ops[id];
            && op.ledger.Some? && op.signed.Some? && op.subjectKey in s.chain.credentials
            && S.GENESIS < op.ledger.value <= S.GENESIS + |s.wire|
            && s.wire[op.ledger.value - S.GENESIS - 1].payload == op.signed.value.payload
            && (if op.fingerprint.IssueCredential? then
                s.chain.credentials[op.subjectKey].issuedLedger == op.ledger.value
                else s.chain.credentials[op.subjectKey].revokedLedger == op.ledger)
  {}

  /** At most one issue and at most one revoke operation per credential ever confirm. */
  lemma OneConfirmationPerCredential(maxAttempts: nat, feePayer: bool, run: seq<Action>, a: string, b: string)
    requires var s := Run(Init(maxAttempts, feePayer), run);
             && a in s.ops && b in s.ops && s.ops[a].phase == Confirmed && s.ops[b].phase == Confirmed
             && var x, y := s.ops[a].fingerprint, s.ops[b].fingerprint;
             && !x.RegisterEntity? && x.IssueCredential? == y.IssueCredential?
             && x.RevokeCredential? == y.RevokeCredential?
             && x.credentialId == y.credentialId
    ensures a == b
  {
    hide Step;
    var s := Run(Init(maxAttempts, feePayer), run);
    InitInv(maxAttempts, feePayer);
    RunKeeps(Init(maxAttempts, feePayer), run);
    SameCredentialSameOperation(s, a, b);
  }

  lemma SameCredentialSameOperation(s: Sys, a: string, b: string)
    requires Inv(s) && a in s.ops && b in s.ops && s.ops[a].phase == Confirmed && s.ops[b].phase == Confirmed
    requires var x, y := s.ops[a].fingerprint, s.ops[b].fingerprint;
             && ((x.IssueCredential? && y.IssueCredential?) || (x.RevokeCredential? && y.RevokeCredential?))
             && x.credentialId == y.credentialId
    ensures a == b
  {
    hide IsHex64, HashDocument;
    assert StoredOk(s, a) && StoredOk(s, b);
    var x, y := s.ops[a].fingerprint, s.ops[b].fingerprint;
    assert x.RevokeCredential? ==> x.reasonHash == y.reasonHash;
    assert CanonicalKey(x) == CanonicalKey(y);
  }

  lemma ConfirmedFact(s: Sys, id: string)
    requires Inv(s) && id in s.ops && s.ops[id].phase == Confirmed
    ensures S.EntitiesOk(s.chain) && OnChain(s.chain, s.ops[id]) && s.ops[id].ledger.Some?
    ensures s.ops[id].subjectKey == SubjectKey(s.ops[id].fingerprint)
  {
    hide OnChain, SubjectKey;
    assert StoredOk(s, id);
  }

  lemma {:induction false} IntentRemains(s: Sys, later: seq<Action>, id: string)
    requires Inv(s) && id in s.ops
    ensures var t := Run(s, later);
            id in t.ops && t.ops[id].fingerprint == s.ops[id].fingerprint
              && t.ops[id].subjectKey == s.ops[id].subjectKey && t.ops[id].idempotencyKey == s.ops[id].idempotencyKey
    decreases |later|
  {
    hide Inv, Step;
    if later != [] {
      StepSaves(s, later[0], id);
      StepKeeps(s, later[0]);
      IntentRemains(Step(s, later[0]), later[1..], id);
    }
  }

  // ----- crash safety of submission -----

  /**
   * Whatever the network received on behalf of an operation is, byte for byte, the signed payload
   * that operation has in the store, then and in every later state; so all its sends are the same.
   */
  lemma SentPayloadsAreStored(maxAttempts: nat, feePayer: bool, run: seq<Action>, i: nat)
    requires i < |Run(Init(maxAttempts, feePayer), run).wire|
    ensures var s := Run(Init(maxAttempts, feePayer), run);
            var sent := s.wire[i];
            sent.sender.Some? ==>
              && sent.sender.value in s.ops && s.ops[sent.sender.value].signed.Some?
              && s.ops[sent.sender.value].signed.value.payload == sent.payload
              && forall j :: 0 <= j < |s.wire| && s.wire[j].sender == sent.sender ==> s.wire[j].payload == sent.payload
  {
    hide Step, StoredOk, LogOk;
    var s := Run(Init(maxAttempts, feePayer), run);
    InitInv(maxAttempts, feePayer);
    RunKeeps(Init(maxAttempts, feePayer), run);
    assert SentOk(s, s.wire[i]);
    forall j | 0 <= j < |s.wire| && s.wire[j].sender == s.wire[i].sender && s.wire[i].sender.Some?
      ensures s.wire[j].payload == s.wire[i].payload
    {
      assert SentOk(s, s.wire[j]);
    }
  }

  /**
   * From `s` to `t`, one of the protocol's own actions sends nothing, or the signed payload its operation has stored.
   */
  ghost predicate SendsWhatIsStored(s: Sys, next: Action, t: Sys) {
    || t.wire == s.wire
    || ((next.Advance? || next.Fail?) && next.operationId in s.ops
        && s.ops[next.operationId].phase == Signed && s.ops[next.operationId].signed.Some?
        && t.wire == s.wire + [Sent(Some(next.operationId), s.ops[next.operationId].signed.value.payload)])
  }

  /** Write-ahead: a stretch that hands a payload to the network finds the record already saved as signed with it. */
  lemma SignedIsSavedBeforeItIsSent(maxAttempts: nat, feePayer: bool, run: seq<Action>, next: Action)
    requires !next.Foreign?
    ensures var s := Run(Init(maxAttempts, feePayer), run); SendsWhatIsStored(s, next, Step(s, next))
  {
    hide Step, SendsWhatIsStored;
    InitInv(maxAttempts, feePayer);
    RunKeeps(Init(maxAttempts, feePayer), run);
    OnlySubmittingSends(Run(Init(maxAttempts, feePayer), run), next);
  }

  predicate Sends(s: Sys, id: string, wire: seq<Sent>)
    requires id in s.calls
  {
    var f := s.calls[id].frame;
    f.Submitting? && f.op.signed.Some? && wire == s.wire + [Sent(Some(id), f.op.signed.value.payload)]
  }

  lemma AdvanceWire(s: Sys, id: string, staysPending: bool, nullLedger: bool)
    requires id in s.calls
    ensures var wire := AdvanceCall(s, id, staysPending, nullLedger).wire; wire == s.wire || Sends(s, id, wire)
  {
    hide S.Signed, S.Poll, AfterPoll, AfterReadback, AfterWorkerError, ReadbackMatches, StartPoll, Save, Throws,
         Transmit;
    var f := s.calls[id].frame;
    if Saving(f) {
      SaveWire(s, f.op);
      StartPollOps(Save(s, f.op), f.op, s.calls[id].caller);
      ThrowsOps(Save(s, f.op), id, s.calls[id].caller, SubmissionFailed);
    } else if f.Submitting? && f.op.signed.Some? {
      TransmitOps(s, id, f.op.signed.value.payload, staysPending);
    }
  }

  lemma SaveWire(s: Sys, op: Operation)
    ensures Save(s, op).wire == s.wire && Save(s, op).maxAttempts == s.maxAttempts
  {}

  lemma FailWire(s: Sys, id: string, code: ErrorCode, reached: bool)
    requires id in s.calls
    ensures var wire := FailCall(s, id, code, reached).wire; wire == s.wire || Sends(s, id, wire)
  {
    hide S.Signed, ScheduleRetry, Transmit, Throws;
    var f := s.calls[id].frame;
    ThrowsOps(s, id, s.calls[id].caller, code);
    if f.Submitting? && f.op.signed.Some? {
      TransmitOps(s, id, f.op.signed.value.payload, false);
    }
  }

  lemma OnlySubmittingSends(s: Sys, next: Action)
    requires Inv(s) && !next.Foreign?
    ensures SendsWhatIsStored(s, next, Step(s, next))
  {
    hide Inv, RestOk, StepPrepare, StepStart, AdvanceCall, FailCall, StoredOk, WriteOk;
    match next
    case Advance(id, staysPending, nullLedger) =>
      if id in s.calls {
        AdvanceWire(s, id, staysPending, nullLedger);
        Enter(s, id);
      }
    case Fail(id, code, reached) =>
      if id in s.calls {
        FailWire(s, id, code, reached);
        Enter(s, id);
      }
    case SubmitSigned(_, _, _, _) => StartOps(s, next);
    case Reconcile(_) => StartOps(s, next);
    case Claim(_, _) => StartOps(s, next);
    case WorkerProcess(_, _) => StartOps(s, next);
    case WorkerMisses(_, _, _) => StartOps(s, next);
    case WorkerForgets(_, _) => StartOps(s, next);
    case Tick(_) =>
    case Crash(_) =>
    case _ => PrepareWire(s, next);
  }

  lemma PrepareWire(s: Sys, a: Action)
    requires a.PrepareStart? || a.PrepareSimulate? || a.PrepareCreate? || a.PrepareAbandon?
    ensures StepPrepare(s, a).wire == s.wire && StepPrepare(s, a).maxAttempts == s.maxAttempts
  {}

  // ----- what prepare stores, and which signature is taken -----

  /**
   * A prepare call stores, when nothing comes in between, what the chain's answer at the simulation makes of the
   * command: failed for good exactly when the chain refuses the call at that moment.
   */
  lemma PrepareStoresWhatTheChainSays(s: Sys, ticket: nat, c: Command, id: string, needsRestore: bool)
    requires ticket in s.preparing && s.preparing[ticket] == Simulating(c) && SpecFor(c).Ok?
    requires CanonicalKey(c) !in s.byKey && id !in s.ops
    ensures var refusal := S.Validate(s.chain, SpecFor(c).value);
            var t := Step(Step(s, PrepareSimulate(ticket, id, needsRestore)), PrepareCreate(ticket));
            && id in t.ops && t.ops == s.ops[id := t.ops[id]] && t.byKey == s.byKey[CanonicalKey(c) := id]
            && StoredFor(c, id, refusal, needsRestore, t.ops[id])
            && (t.ops[id].phase == FailedTerminal <==> refusal.Some?)
  {
    hide SpecFor, CanonicalKey, NewOperation, S.Validate, StepStart, AdvanceCall, FailCall;
    var refusal := S.Validate(s.chain, SpecFor(c).value);
    SimulationDecides(c, id, refusal, needsRestore);
    var u := Step(s, PrepareSimulate(ticket, id, needsRestore));
    assert u == s.(preparing := s.preparing[ticket := Creating(NewOperation(c, id, refusal, needsRestore))]);
  }

  /** The signer is a smart wallet. */
  predicate IsWallet(signer: Address) {
    signer != "" && signer[0] == 'C'
  }

  /**
   * The first signature of an operation is taken exactly when its signer is the actor and what would go to the
   * network is a signed envelope of the command's own call: as handed in, or for a smart wallet as assembled, and
   * then only where a fee payer is configured. It is stored with just that envelope before anything is sent, and
   * nothing happens otherwise.
   */
  lemma SignatureIsTakenExactlyWhen(s: Sys, id: string, payload: S.Payload, signer: Address, assembled: S.Payload)
    requires Inv(s) && id in s.ops && id !in s.calls && s.ops[id].phase == AwaitingSignature
    ensures var op := s.ops[id];
            var sent := if IsWallet(signer) then assembled else payload;
            var t := Step(s, SubmitSigned(id, payload, signer, assembled));
            && (id in t.calls <==>
                && signer == op.actorAddress && (IsWallet(signer) ==> s.feePayer)
                && S.Signed(sent) && Ok(sent.call) == SpecFor(op.fingerprint))
            && (id !in t.calls ==> t == s)
            && (id in t.calls ==>
                  Step(t, Advance(id, false, false)).ops
                  == s.ops[id := op.(signed := Some(SignedPayload(sent, signer)), phase := Signed)]
                  && Step(t, Advance(id, false, false)).wire == s.wire)
  {
    hide Inv, RestOk, CanonicalKey, SubjectKey, SpecFor, ExpectedFor, S.Submit;
    EnterIdle(s, id);
  }

  /** A signed operation resends its stored payload to exactly those who bring it and its signer. */
  lemma ResendExactlyWhen(s: Sys, id: string, payload: S.Payload, signer: Address, assembled: S.Payload)
    requires Inv(s) && id in s.ops && id !in s.calls && s.ops[id].phase != AwaitingSignature
    ensures var t := Step(s, SubmitSigned(id, payload, signer, assembled));
            if s.ops[id].phase == Signed && s.ops[id].signed == Some(SignedPayload(payload, signer))
            then t == At(s, id, Api, Submitting(s.ops[id], true)) else t == s
  {
    hide Inv, RestOk, CanonicalKey, SubjectKey, SpecFor, ExpectedFor, S.Submit, FinalPayload;
    EnterIdle(s, id);
    assert s.calls - {id} == s.calls;
  }

  // ----- one operation per idempotency key -----

  /** In every reachable state two operations with the same canonical key are one. */
  lemma OneOperationPerKey(maxAttempts: nat, feePayer: bool, run: seq<Action>, a: string, b: string)
    requires var s := Run(Init(maxAttempts, feePayer), run);
             a in s.ops && b in s.ops && CanonicalKey(s.ops[a].fingerprint) == CanonicalKey(s.ops[b].fingerprint)
    ensures a == b
  {
    hide Step, PhaseOk, ConfirmedOk, CanonicalKey, SubjectKey, SpecFor, ExpectedFor;
    var s := Run(Init(maxAttempts, feePayer), run);
    InitInv(maxAttempts, feePayer);
    RunKeeps(Init(maxAttempts, feePayer), run);
    assert StoredOk(s, a) && StoredOk(s, b);
  }

  /**
   * The idempotency lookup, in every reachable state: nothing is found exactly when no operation has
   * the command's key; a command with the fields of the operation under its key gets that operation
   * back whatever client key it carries; any other command under that key is rejected.
   */
  lemma ReplayReturnsTheOriginal(maxAttempts: nat, feePayer: bool, run: seq<Action>, c: Command)
    ensures var s := Run(Init(maxAttempts, feePayer), run);
            match LookUp(s, c)
            case Fresh => forall id :: id in s.ops ==> s.ops[id].idempotencyKey != CanonicalKey(c)
            case Replay(op) =>
              op.operationId in s.ops && op == s.ops[op.operationId] && op.fingerprint == WithoutClientKey(c)
            case Rejected =>
              exists id :: id in s.ops && s.ops[id].idempotencyKey == CanonicalKey(c)
                && s.ops[id].fingerprint != WithoutClientKey(c)
  {
    hide Step, PhaseOk, ConfirmedOk, CanonicalKey, SubjectKey, SpecFor, ExpectedFor;
    var s := Run(Init(maxAttempts, feePayer), run);
    InitInv(maxAttempts, feePayer);
    RunKeeps(Init(maxAttempts, feePayer), run);
    var key := CanonicalKey(c);
    if key in s.byKey {
      assert KeyOk(s, key) && StoredOk(s, s.byKey[key]);
    } else {
      forall id | id in s.ops ensures s.ops[id].idempotencyKey != key { assert StoredOk(s, id); }
    }
  }

  /**
   * A key stays bound for ever: in every later state the lookup of a command with that key finds the
   * operation it found, or refuses, and no other operation has the key. So a command whose operation
   * failed for good, or is stuck, never confirms, whatever prepare calls follow.
   */
  lemma KeyStaysBound(maxAttempts: nat, feePayer: bool, run: seq<Action>, later: seq<Action>, c: Command, id: string)
    requires var s := Run(Init(maxAttempts, feePayer), run);
             id in s.ops && CanonicalKey(s.ops[id].fingerprint) == CanonicalKey(c)
    ensures var s := Run(Init(maxAttempts, feePayer), run);
            var t := Run(s, later);
            && id in t.ops
            && (LookUp(t, c) == Replay(t.ops[id]) || LookUp(t, c) == Rejected)
            && (forall other :: other in t.ops && CanonicalKey(t.ops[other].fingerprint) == CanonicalKey(c) ==>
                other == id && (Stuck(s.ops[id].phase) ==> t.ops[other].phase != Confirmed))
  {
    hide Step, Run, Inv, PhaseOk, ConfirmedOk, CanonicalKey, SubjectKey, SpecFor, ExpectedFor;
    var start := Init(maxAttempts, feePayer);
    var s, t := Run(start, run), Run(Run(start, run), later);
    InitInv(maxAttempts, feePayer);
    RunKeeps(start, run);
    RunKeeps(s, later);
    IntentRemains(s, later, id);
    EnterIdle(t, id);
    RunConcat(start, run, later);
    forall other | other in t.ops && CanonicalKey(t.ops[other].fingerprint) == CanonicalKey(c) ensures other == id {
      OneOperationPerKey(maxAttempts, feePayer, run + later, other, id);
    }
    if Stuck(s.ops[id].phase) { RetryableNeverConfirms(s, later, id); }
  }
}
