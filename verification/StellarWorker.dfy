/**
 * The worker: claims batches, drives each claimed operation through the gateway, and counts attempts
 * when that fails. Runs of the worker are runs of the protocol's state machine. Every processed claim
 * takes from a budget that nothing here refills, except where the store refuses the error handler; so
 * the worker runs out of work when those refusals do.
 */
module StellarWorker {
  import opened Common
  import opened Operations
  import opened Protocol
  import opened OperationStore
  import opened GatewayOutcomes
  import opened GatewayCalls
  import S = SimulatedChain

  // ----- the attempts that are left -----

  function Cost(op: Operation, maxAttempts: nat): nat {
    if IsTerminal(op.phase) || maxAttempts <= op.attemptCount then 0 else maxAttempts - op.attemptCount
  }

  /** Attempts left over all live operations. */
  function Budget(order: seq<string>, byId: map<string, Operation>, maxAttempts: nat): nat
    requires forall id :: id in order ==> id in byId
  {
    if order == [] then 0
    else Budget(order[..|order| - 1], byId, maxAttempts) + Cost(byId[order[|order| - 1]], maxAttempts)
  }

  lemma {:induction false} BudgetUpdate(order: seq<string>, byId: map<string, Operation>, id: string, op: Operation,
                                        maxAttempts: nat)
    requires Distinct(order) && forall i :: i in order ==> i in byId
    ensures Budget(order, byId[id := op], maxAttempts)
            == Budget(order, byId, maxAttempts) + if id in order then
              Cost(op, maxAttempts) - Cost(byId[id], maxAttempts) else 0
    decreases |order|
  {
    if order != [] {
      var rest, last := order[..|order| - 1], order[|order| - 1];
      assert order == rest + [last];
      BudgetUpdate(rest, byId, id, op, maxAttempts);
    }
  }

  /** Attempts pass the limit by one at most, and only on a record the worker gave up on. */
  predicate Limited(op: Operation, maxAttempts: nat) {
    op.attemptCount <= maxAttempts || (op.attemptCount == maxAttempts + 1 && op.phase == FailedTerminal)
  }

  predicate WithinLimit(byId: map<string, Operation>, maxAttempts: nat) {
    forall id :: id in byId ==> Limited(byId[id], maxAttempts)
  }

  /** A processed claim takes at least one attempt from the budget, unless nothing counts its failure. */
  lemma ClaimSpends(record: Operation, luck: Luck, b: Sys)
    requires Claimable(record, map[], b.now, b.maxAttempts)
    ensures var after := AfterClaim(record, luck, b);
            && after.operationId == record.operationId && Limited(after, b.maxAttempts)
            && Cost(after, b.maxAttempts) + (if CountsNone(record, luck, b) then 0 else 1)
               <= Cost(record, b.maxAttempts)
    ensures CountsNone(record, luck, b) ==> HandlerFails(luck)
  {
    hide AfterClaim, CountsTwice, Slips;
    ClaimCountsOnceExactlyWhen(record, luck, b);
  }

  // ----- the error handler -----

  lemma HandlerReads(b: Sys, id: string, code: ErrorCode)
    requires id in b.ops && id !in b.calls
    ensures var write := AfterWorkerError(b.ops[id], code, b.now, b.maxAttempts);
            Step(At(b, id, Caller.Worker, HandlerRead(code)), Advance(id, false, false))
            == if write.None? then b else At(b, id, Caller.Worker, HandlerSave(write.value))
  {
    hide S.Submit, S.Poll, AfterPoll, AfterReadback, StartPoll, Throws, AfterWorkerError, Save, StepPrepare, StepStart;
    assert b.calls[id := InFlight(Caller.Worker, HandlerRead(code))] - {id} == b.calls;
  }

  lemma HandlerSaves(b: Sys, id: string, op: Operation)
    requires id in b.ops && id !in b.calls && op.operationId == id
    ensures Step(At(b, id, Caller.Worker, HandlerSave(op)), Advance(id, false, false)) == Saved(b, op)
  {}

  lemma TimePasses(b: Sys, id: string, frame: Frame, ms: nat)
    ensures Step(At(b, id, Caller.Worker, frame), Tick(ms)) == At(b.(now := b.now + ms), id, Caller.Worker, frame)
  {}

  lemma HandlerReadFails(b: Sys, id: string, code: ErrorCode, error: ErrorCode)
    requires id !in b.calls
    ensures Step(At(b, id, Caller.Worker, HandlerRead(code)), Fail(id, error, false)) == b
  {
    assert b.calls[id := InFlight(Caller.Worker, HandlerRead(code))] - {id} == b.calls;
  }

  lemma HandlerSaveFails(b: Sys, id: string, op: Operation, error: ErrorCode)
    requires id !in b.calls
    ensures Step(At(b, id, Caller.Worker, HandlerSave(op)), Fail(id, error, false)) == b
  {
    assert b.calls[id := InFlight(Caller.Worker, HandlerSave(op))] - {id} == b.calls;
  }

  // ----- one claim -----

  /** The claim's record once its call has ended, and once the handler has written over a failure. */
  lemma ProcessEnded(r: Result<Operation, ErrorCode>, before: map<string, Operation>, after: map<string, Operation>,
                     record: Operation, luck: Luck, b: Sys)
    requires Ended(r, before, after, record.operationId, AfterProcess(record, luck.weather, b))
    ensures var id, o := record.operationId, AfterProcess(record, luck.weather, b);
            && after == before[id := o.record] && id in after && (r.Ok? <==> o.error.None?)
            && (r.Ok? ==> after == before[id := AfterClaim(record, luck, b)])
            && (r.Err? ==>
                var write := AfterWorkerError(after[id], r.error, b.now + luck.handlerDelay, b.maxAttempts);
                (if write.None? || HandlerFails(luck) then after else after[id := write.value])
                == before[id := AfterClaim(record, luck, b)])
  {
    hide AfterProcess, AfterWorkerError;
  }

  /** The state once the worker has taken the claimed copy to process it. */
  function Taken(b: Sys, who: string, id: string): Sys {
    b.(claimed := b.claimed - {Copy(who, id)})
  }

  lemma HowProcessStarts(b: Sys, who: string, id: string)
    requires id in b.ops && b.ops[id].operationId == id && id !in b.calls && Copy(who, id) in b.claimed
    ensures var copy, start := b.claimed[Copy(who, id)], Step(b, WorkerProcess(id, who));
            if copy.phase != Signed then start == StartReconcile(Taken(b, who, id), id, Caller.Worker)
            else if copy.signed.None? then start == Over(Taken(b, who, id), id, Caller.Worker, Some(InvalidTransition))
            else
              start == StartSubmit(Taken(b, who, id), id, copy.signed.value.payload, copy.signed.value.signer,
                                   copy.signed.value.payload, Caller.Worker)
  {}

  lemma HowMissing(b: Sys, who: string, id: string, code: ErrorCode)
    requires id in b.ops && b.ops[id].operationId == id && id !in b.calls && Copy(who, id) in b.claimed
    ensures Step(b, WorkerMisses(id, who, code)) == Over(Taken(b, who, id), id, Caller.Worker, Some(code))
  {}

  class Worker {
    const store: Store
    const gateway: Gateway
    const maxAttempts: nat
    const workerId: string

    constructor (gateway: Gateway, workerId: string)
      ensures this.gateway == gateway && this.workerId == workerId && store == gateway.store
              && maxAttempts == gateway.maxAttempts
    {
      this.gateway, this.workerId, store, maxAttempts := gateway, workerId, gateway.store, gateway.maxAttempts;
    }

    ghost predicate Valid() {
      store == gateway.store && maxAttempts == gateway.maxAttempts
    }

    /**
     * Counts the attempt, unless a backed-off signed record is already queued; gives up past the limit. A read that
     * rejects ends the batch, a save that rejects is swallowed.
     */
    method HandleError(id: string, code: ErrorCode, luck: Luck, at: nat, ghost b: Sys)
      returns (rejected: bool, ghost trace: seq<Action>)
      requires Valid() && gateway.Holds(b) && b.now == at && id in store.byId && id !in b.calls
      modifies store`byId
      ensures Run(At(b, id, Caller.Worker, HandlerRead(code)), trace) == gateway.Now(b)
      ensures store.Valid() && rejected == luck.handlerReadThrows
      ensures var write := AfterWorkerError(old(store.byId[id]), code, at, maxAttempts);
              store.byId == if write.None? || HandlerFails(luck) then old(store.byId)
              else old(store.byId)[id := write.value]
    {
      hide Step, At, BackoffMs, Run;
      ghost var start := At(b, id, Caller.Worker, HandlerRead(code));
      RunNothing(start);
      HandlerReadFails(b, id, code, STORE_ERROR);
      HandlerReads(b, id, code);
      if luck.handlerReadThrows {
        RunSnoc(start, [], Fail(id, STORE_ERROR, false));
        return true, [] + [Fail(id, STORE_ERROR, false)];
      }
      var record := store.byId[id];
      rejected := false;
      RunSnoc(start, [], Advance(id, false, false));
      trace := [] + [Advance(id, false, false)];
      if record.phase == Signed && record.nextRetryAt.Some? && record.nextRetryAt.value > at {
        record := record.(errorCode := Some(code));
      } else if IsTerminal(record.phase) {
        return;
      } else {
        record := record.(attemptCount := record.attemptCount + 1);
        if record.attemptCount > maxAttempts {
          record := record.(errorCode := Some(MaxAttemptsExceeded), phase := FailedTerminal);
        } else {
          record := record.(errorCode := Some(code), phase := FailedRetryable,
                            nextRetryAt := Some(at + BackoffMs(record.attemptCount)));
        }
      }
      HandlerSaveFails(b, id, record, STORE_ERROR);
      HandlerSaves(b, id, record);
      RunSnoc(start, trace, if luck.handlerSaveThrows then Fail(id, STORE_ERROR, false) else Advance(id, false, false));
      trace := trace + [if luck.handlerSaveThrows then Fail(id, STORE_ERROR, false) else Advance(id, false, false)];
      if !luck.handlerSaveThrows {
        var saved := store.SaveRecord(record);
      }
    }

    /** Resubmits a signed record, reconciles any other. */
    method Process(record: Operation, w: Weather, now: nat, ghost b: Sys)
      returns (r: Result<Operation, ErrorCode>, ghost trace: seq<Action>)
      requires Valid() && gateway.Holds(b) && b.now == now && record.operationId !in b.calls
      requires Copy(workerId, record.operationId) in b.claimed
               && b.claimed[Copy(workerId, record.operationId)] == record
      requires record.operationId in store.byId && store.byId[record.operationId] == record
               && ActionablePhase(record.phase)
      modifies store`byId, gateway.transport, gateway`wire
      ensures Run(b, trace)
              == Over(gateway.Now(Taken(b, workerId, record.operationId)), record.operationId, Caller.Worker,
                      if r.Err? then Some(r.error) else None)
      ensures store.Valid()
      ensures Ended(r, old(store.byId), store.byId, record.operationId, AfterProcess(record, w, b))
    {
      hide Step, Over, StartReconcile, StartSubmit, AfterSubmit, AfterReconcile, Ended, Run;
      var id := record.operationId;
      ghost var taken := Taken(b, workerId, id);
      ghost var rest, first := [], WorkerProcess(id, workerId);
      RunNothing(b);
      HowProcessStarts(b, workerId, id);
      EndedAsItWas(store.byId, id, InvalidTransition);
      if record.phase == Signed && record.signed.None? {
        RunSnoc(b, [], first);
        return Err(InvalidTransition), [] + [first];
      }
      if w.readThrows {
        first := WorkerMisses(id, workerId, STORE_ERROR);
        HowMissing(b, workerId, id, STORE_ERROR);
      }
      RunSnoc(b, [], first);
      TakenLooksAlike(record, w, b, workerId);
      if record.phase == Signed {
        var signed := record.signed.value;
        r, rest :=
          gateway.SubmitSigned(id, signed.payload, signed.signer, signed.payload, Caller.Worker, w, now, taken);
      } else {
        r, rest := gateway.Reconcile(id, Caller.Worker, w, now, taken);
      }
      RunConcat(b, [] + [first], rest);
      trace := ([] + [first]) + rest;
    }

    /** The error handler runs, some time after the call on `id` failed. */
    method HandleFailure(id: string, code: ErrorCode, luck: Luck, now: nat, ghost b: Sys)
      returns (rejected: bool, t: nat, ghost trace: seq<Action>)
      requires Valid() && gateway.Holds(b) && b.now == now && id !in b.calls && id in store.byId
      modifies store`byId
      ensures t == now + luck.handlerDelay
              && Run(At(b, id, Caller.Worker, HandlerRead(code)), trace) == gateway.Now(b).(now := t)
      ensures store.Valid() && rejected == luck.handlerReadThrows
      ensures var write := AfterWorkerError(old(store.byId[id]), code, t, maxAttempts);
              store.byId == if write.None? || HandlerFails(luck) then old(store.byId)
              else old(store.byId)[id := write.value]
    {
      hide Step, AfterWorkerError, At, Run;
      ghost var start := At(b, id, Caller.Worker, HandlerRead(code));
      RunNothing(start);
      t := now + luck.handlerDelay;
      TimePasses(b, id, HandlerRead(code), luck.handlerDelay);
      RunSnoc(start, [], Tick(luck.handlerDelay));
      ghost var rest;
      rejected, rest := HandleError(id, code, luck, t, b.(now := t));
      RunConcat(start, [] + [Tick(luck.handlerDelay)], rest);
      trace := ([] + [Tick(luck.handlerDelay)]) + rest;
    }

    /**
     * One iteration of the batch loop: process the claim, and hand a failure to the error handler. A handler whose
     * read rejects ends the batch.
     */
    method ProcessClaim(record: Operation, luck: Luck, now: nat, ghost b: Sys)
      returns (rejected: bool, t: nat, ghost trace: seq<Action>)
      requires Valid() && gateway.Holds(b) && b.now == now && record.operationId !in b.calls
      requires Copy(workerId, record.operationId) in b.claimed
               && b.claimed[Copy(workerId, record.operationId)] == record
      requires record.operationId in store.byId && store.byId[record.operationId] == record
               && ActionablePhase(record.phase)
      modifies store`byId, gateway.transport, gateway`wire
      ensures now <= t && Run(b, trace) == gateway.Now(Taken(b, workerId, record.operationId)).(now := t)
      ensures store.Valid()
      ensures store.byId == old(store.byId)[record.operationId := AfterClaim(record, luck, b)]
      ensures rejected == (AfterProcess(record, luck.weather, b).error.Some? && luck.handlerReadThrows)
    {
      hide Step, At, Run, AfterProcess, AfterWorkerError, AfterClaim, HandlerFails, Ended;
      var id := record.operationId;
      var r;
      r, trace := Process(record, luck.weather, now, b);
      ProcessEnded(r, b.ops, store.byId, record, luck, b);
      if r.Ok? { return false, now, trace; }
      ghost var failed, rest := gateway.Now(Taken(b, workerId, id)), [];
      rejected, t, rest := HandleFailure(id, r.error, luck, now, failed);
      RunConcat(b, trace, rest);
      trace := trace + rest;
    }

    /** The next claim of a batch, after whatever time the ones before it took. */
    method ProcessNext(record: Operation, luck: Luck, now: nat, ghost b: Sys)
      returns (rejected: bool, t: nat, ghost trace: seq<Action>, ghost b': Sys, ghost start: Sys)
      requires Valid() && gateway.Holds(b) && b.now == now && b.calls == map[] && WithinLimit(store.byId, maxAttempts)
      requires StillClaimed(workerId, b, store.byId, record) && Claimable(record, map[], now, maxAttempts)
      modifies store`byId, gateway.transport, gateway`wire
      ensures Run(b, trace) == b' && gateway.Holds(b') && b'.now == t >= now && b'.calls == map[]
      ensures Others(workerId, b, old(store.byId), b', store.byId, record.operationId)
      ensures WithinLimit(store.byId, maxAttempts)
      ensures Budget(store.order, store.byId, maxAttempts) + 1
              <= Budget(store.order, old(store.byId), maxAttempts) + if CountsNone(record, luck, start) then 1 else 0
      ensures OnTheWay(b, trace, start) && (rejected ==> luck.handlerReadThrows)
    {
      hide Step, Budget, WithinLimit, Others, Run, AfterClaim, CountsNone, HandlerFails, OnTheWay;
      start := Delayed(b, luck.delay);
      RunNothing(b);
      TickDelays(b, luck.delay);
      RunSnoc(b, [], Tick(luck.delay));
      ghost var rest;
      rejected, t, rest := ProcessClaim(record, luck, now + luck.delay, start);
      b' := gateway.Now(Taken(start, workerId, record.operationId)).(now := t);
      RunConcat(b, [] + [Tick(luck.delay)], rest);
      trace := ([] + [Tick(luck.delay)]) + rest;
      WayTo(b, [] + [Tick(luck.delay)], rest);
      Later(record, now, start.now, maxAttempts);
      ClaimSpends(record, luck, start);
      OneSpent(store.order, b.ops, AfterClaim(record, luck, start), maxAttempts);
      OthersStay(workerId, b, b', record.operationId);
    }

    /** The claimed batch, one claim after the other, until one of them rejects. */
    method ProcessBatch(batch: seq<Operation>, luck: nat -> Luck, now: nat, ghost b: Sys)
      returns (n: nat, rejected: bool, t: nat, ghost trace: seq<Action>, ghost b': Sys, ghost starts: seq<Sys>)
      requires Valid() && gateway.Holds(b) && b.now == now && b.calls == map[] && WithinLimit(store.byId, maxAttempts)
      requires forall op :: op in batch ==>
                 StillClaimed(workerId, b, store.byId, op) && Claimable(op, map[], now, maxAttempts)
      requires forall i, j :: 0 <= i < j < |batch| ==> batch[i].operationId != batch[j].operationId
      modifies store`byId, gateway.transport, gateway`wire
      ensures Run(b, trace) == b' && gateway.Holds(b') && b'.now == t >= now && b'.calls == map[]
      ensures WithinLimit(store.byId, maxAttempts)
      ensures |starts| == n <= |batch| && forall s :: s in starts ==> OnTheWay(b, trace, s)
      ensures Budget(store.order, store.byId, maxAttempts) + n
              <= Budget(store.order, old(store.byId), maxAttempts) + Lost(batch, luck, starts)
      ensures if rejected then 0 < n <= |batch| && luck(n - 1).handlerReadThrows else n == |batch|
    {
      hide Step, Budget, WithinLimit, StillClaimed, Claimable, Others, Run, CountsNone, Lost, OnTheWay;
      RunNothing(b);
      NoneLost(batch, luck);
      trace, t, b', starts := [], now, b, [];
      n, rejected := 0, false;
      while n < |batch| && !rejected
        invariant 0 <= n <= |batch|
        invariant gateway.Holds(b') && b'.now == t && b'.calls == map[] && Run(b, trace) == b' && now <= t
        invariant forall j :: n <= j < |batch| ==> StillClaimed(workerId, b', store.byId, batch[j])
        invariant WithinLimit(store.byId, maxAttempts)
        invariant |starts| == n && forall s :: s in starts ==> OnTheWay(b, trace, s)
        invariant Budget(store.order, store.byId, maxAttempts) + n
                  <= Budget(store.order, old(store.byId), maxAttempts) + Lost(batch, luck, starts)
        invariant rejected ==> n > 0 && luck(n - 1).handlerReadThrows
      {
        ghost var before, part, start := b', [], b;
        Later(batch[n], now, t, maxAttempts);
        rejected, t, part, b', start := ProcessNext(batch[n], luck(n), t, b');
        RunConcat(b, trace, part);
        StillOnTheWay(b, trace, part, starts, start);
        trace := trace + part;
        AllOthers(workerId, before, before.ops, b', store.byId, batch, n);
        OneMoreLost(batch, luck, starts, start);
        starts := starts + [start];
        n := n + 1;
      }
    }

    /**
     * Claims a batch and processes it; as a run of the protocol it starts and ends with no call in flight. It rejects,
     * dropping the rest of the batch, when the claim itself or an error handler's read does.
     */
    method RunOneBatch(batchSize: nat, ttlMs: nat, claimThrows: bool, luck: nat -> Luck, now: nat, ghost b: Sys)
      returns (n: nat, rejected: bool, t: nat, ghost trace: seq<Action>, ghost b': Sys,
               ghost starts: seq<Sys>)
      requires Valid() && gateway.Holds(b) && b.now == now && b.calls == map[] && WithinLimit(store.byId, maxAttempts)
      modifies store`byId, store`leases, gateway.transport, gateway`wire
      ensures Run(b, trace) == b' && gateway.Holds(b') && b'.now == t >= now && b'.calls == map[]
      ensures WithinLimit(store.byId, maxAttempts)
      ensures |starts| == n && forall s :: s in starts ==> OnTheWay(b, trace, s)
      ensures var handed := Handed(store.order, old(store.byId), old(store.leases), batchSize, now, maxAttempts);
              && n <= |handed|
              && Budget(store.order, store.byId, maxAttempts) + n
                 <= Budget(store.order, old(store.byId), maxAttempts) + Lost(handed, luck, starts)
              && store.leases == (if claimThrows then old(store.leases)
                                  else Leased(old(store.leases), handed, Lease(workerId, now + ttlMs)))
              && if claimThrows then rejected && n == 0 && b' == b
                 else if rejected then 0 < n && luck(n - 1).handlerReadThrows
                 else n == |handed|
    {
      hide Step, Leased, Budget, WithinLimit, StillClaimed, Claimable, Run, Handed, OnTheWay, Actionable, CountsNone;
      RunNothing(b);
      if claimThrows { return 0, true, now, [], b, []; }
      HandedAre(b, store.order, store.leases, batchSize, now, maxAttempts);
      var batch := store.ClaimBatch(batchSize, workerId, ttlMs, maxAttempts, now);
      ghost var claims := ClaimAll(workerId, b, batch);
      ghost var part;
      n, rejected, t, part, b', starts := ProcessBatch(batch, luck, now, Run(b, claims));
      RunConcat(b, claims, part);
      ghost var left := ForgetAll(workerId, b', batch[n..]);
      RunConcat(b, claims + part, left);
      OnTheLongerWay(b, claims, part, left, starts);
      b' := Run(b', left);
      trace := (claims + part) + left;
    }

    /** A pause and the batch after it. */
    method TakeTurn(pause: nat, batchSize: nat, ttlMs: nat, claimThrows: bool, luck: nat -> Luck, now: nat,
                    ghost b: Sys)
      returns (n: nat, rejected: bool, t: nat, ghost trace: seq<Action>, ghost b': Sys, ghost turn: Turn)
      requires Valid() && gateway.Holds(b) && b.now == now && b.calls == map[] && WithinLimit(store.byId, maxAttempts)
      modifies store`byId, store`leases, gateway.transport, gateway`wire
      ensures Run(b, trace) == b' && gateway.Holds(b') && b'.now == t >= now && b'.calls == map[]
      ensures WithinLimit(store.byId, maxAttempts)
      ensures Budget(store.order, store.byId, maxAttempts) + n
              <= Budget(store.order, old(store.byId), maxAttempts) + Unhandled(luck, n)
      ensures turn.n == n && turn.rejected == rejected && turn.leases == old(store.leases)
              && turn.after == store.leases
      ensures TurnOk(b, trace, turn, store.order, workerId, batchSize, ttlMs, maxAttempts, claimThrows, luck)
    {
      hide Step, Budget, WithinLimit, Handed, Run, Unhandled, Lost, OnTheWay, CountsNone, TurnOk, Leased;
      RunNothing(b);
      TickDelays(b, pause);
      RunSnoc(b, [], Tick(pause));
      ghost var start, part, starts := Delayed(b, pause), [], [];
      n, rejected, t, part, b', starts := RunOneBatch(batchSize, ttlMs, claimThrows, luck, now + pause, start);
      LostAreUnhandled(Handed(store.order, start.ops, old(store.leases), batchSize, start.now, maxAttempts), luck,
                       starts);
      RunConcat(b, [] + [Tick(pause)], part);
      turn := Turn(start, old(store.leases), store.leases, n, rejected);
      trace := ([] + [Tick(pause)]) + part;
      TurnTaken(b, [] + [Tick(pause)], part, turn, store.order, workerId, batchSize, ttlMs, maxAttempts, claimThrows,
                luck);
    }

    /**
     * The loop, stopped after some number of batches or ended by one that rejects: however many it runs and
     * however long it sleeps in between, all the claims it ever processes fit in the budget it started with
     * and the number of error handlers the store refused. Each turn claims from the store and the leases the
     * one before it left, and is the last one exactly when it rejects or enough batches were run.
     */
    method RunLoop(batches: nat, batchSize: nat, ttlMs: nat, claimThrows: nat -> bool, luck: (nat, nat) -> Luck,
                   pause: nat -> nat, now: nat, ghost b: Sys)
      returns (processed: nat, rejected: bool, ghost turns: seq<Turn>, ghost trace: seq<Action>, ghost b': Sys)
      requires Valid() && gateway.Holds(b) && b.now == now && b.calls == map[] && WithinLimit(store.byId, maxAttempts)
      modifies store`byId, store`leases, gateway.transport, gateway`wire
      ensures Run(b, trace) == b' && gateway.Holds(b') && b'.calls == map[]
      ensures WithinLimit(store.byId, maxAttempts)
      ensures processed == Total(turns) && |turns| <= batches && (|turns| < batches ==> rejected)
      ensures TurnsOk(b, trace, turns, store.order, workerId, batchSize, ttlMs, maxAttempts, claimThrows, luck)
      ensures forall k :: 0 <= k < |turns| ==> (turns[k].rejected <==> rejected && k == |turns| - 1)
      ensures Chained(turns, old(store.leases), store.leases)
      ensures Budget(store.order, store.byId, maxAttempts) + processed
              <= Budget(store.order, old(store.byId), maxAttempts) + UnhandledIn(luck, turns)
    {
      hide Step, Budget, WithinLimit, Handed, Run, Unhandled, Lost, OnTheWay, CountsNone, TurnOk, TurnsOk, Leased,
           Chained, Total, UnhandledIn;
      NoTurnsYet(luck, store.leases);
      assert TurnsOk(b, [], [], store.order, workerId, batchSize, ttlMs, maxAttempts, claimThrows, luck) by {
        NoTurns(b, store.order, workerId, batchSize, ttlMs, maxAttempts, claimThrows, luck);
      }
      ghost var byId0, leases0 := store.byId, store.leases;
      RunNothing(b);
      processed, rejected, turns, trace, b' := 0, false, [], [], b;
      var t := now;
      for k := 0 to batches
        invariant gateway.Holds(b') && b'.now == t && b'.calls == map[] && Run(b, trace) == b'
        invariant WithinLimit(store.byId, maxAttempts)
        invariant processed == Total(turns) && |turns| == k && !rejected
        invariant TurnsOk(b, trace, turns, store.order, workerId, batchSize, ttlMs, maxAttempts, claimThrows, luck)
        invariant forall j :: 0 <= j < |turns| ==> !turns[j].rejected
        invariant Chained(turns, leases0, store.leases)
        invariant Budget(store.order, store.byId, maxAttempts) + processed
                  <= Budget(store.order, byId0, maxAttempts) + UnhandledIn(luck, turns)
      {
        var n;
        ghost var turn, part := Turn(b', store.leases, store.leases, 0, false), [];
        n, rejected, t, part, b', turn := TakeTurn(pause(k), batchSize, ttlMs, claimThrows(k), Nth(luck, k), t, b');
        RunConcat(b, trace, part);
        TurnStarts(b, trace, part, turn, store.order, workerId, batchSize, ttlMs, maxAttempts, claimThrows(k),
                   Nth(luck, k));
        OneMoreTurnOk(b, trace, part, turns, turn, store.order, workerId, batchSize, ttlMs, maxAttempts, claimThrows,
                      luck);
        OneMoreTurn(luck, turns, turn);
        OneMoreChained(turns, turn, leases0);
        trace := trace + part;
        processed := processed + n;
        turns := turns + [turn];
        if rejected { break; }
      }
    }
  }

  // ----- error handlers the store refused -----

  /** Among the first `n` claims, those whose error handler the store would refuse. */
  function Unhandled(luck: nat -> Luck, n: nat): nat {
    if n == 0 then 0 else Unhandled(luck, n - 1) + if HandlerFails(luck(n - 1)) then 1 else 0
  }

  /** Among the claims that were processed from `starts`, those whose failure nothing counted. */
  function Lost(batch: seq<Operation>, luck: nat -> Luck, starts: seq<Sys>): nat
    requires |starts| <= |batch|
  {
    if starts == [] then 0
    else
      var i := |starts| - 1;
      Lost(batch, luck, starts[..i]) + if CountsNone(batch[i], luck(i), starts[i]) then 1 else 0
  }

  lemma NoneLost(batch: seq<Operation>, luck: nat -> Luck)
    ensures Lost(batch, luck, []) == 0
  {}

  lemma OneMoreLost(batch: seq<Operation>, luck: nat -> Luck, starts: seq<Sys>, start: Sys)
    requires |starts| < |batch|
    ensures Lost(batch, luck, starts + [start])
            == Lost(batch, luck, starts) + if CountsNone(batch[|starts|], luck(|starts|), start) then 1 else 0
  {
    hide CountsNone;
    assert (starts + [start])[..|starts|] == starts;
  }

  lemma {:induction false} LostAreUnhandled(batch: seq<Operation>, luck: nat -> Luck, starts: seq<Sys>)
    requires |starts| <= |batch|
    ensures Lost(batch, luck, starts) <= Unhandled(luck, |starts|)
    decreases |starts|
  {
    hide Slips;
    if starts != [] { LostAreUnhandled(batch, luck, starts[..|starts| - 1]); }
  }

  function Nth(luck: (nat, nat) -> Luck, k: nat): nat -> Luck {
    (i: nat) => luck(k, i)
  }

  /** One batch of the loop: where it starts, the leases before and after, and how many claims it processed. */
  datatype Turn = Turn(start: Sys, leases: map<string, Lease>, after: map<string, Lease>, n: nat, rejected: bool)

  /**
   * The turn starts from a state the run passes through, leases what the store hands out there, and processes all
   * of it unless it rejects: because the claim does, or the read of an error handler.
   */
  ghost predicate TurnOk(b: Sys, trace: seq<Action>, turn: Turn, order: seq<string>, workerId: string, batchSize: nat,
                         ttlMs: nat, maxAttempts: nat, claimThrows: bool, luck: nat -> Luck)
  {
    && OnTheWay(b, trace, turn.start) && (forall id :: id in order ==> id in turn.start.ops)
    && var handed := Handed(order, turn.start.ops, turn.leases, batchSize, turn.start.now, maxAttempts);
    if claimThrows then turn.rejected && turn.n == 0 && turn.after == turn.leases
    else
      && turn.after == Leased(turn.leases, handed, Lease(workerId, turn.start.now + ttlMs))
      && if turn.rejected then 0 < turn.n <= |handed| && luck(turn.n - 1).handlerReadThrows else turn.n == |handed|
  }

  /** Each turn finds the leases the one before it left. */
  ghost predicate Chained(turns: seq<Turn>, before: map<string, Lease>, after: map<string, Lease>) {
    && (forall k :: 0 < k < |turns| ==> turns[k].leases == turns[k - 1].after)
    && if turns == [] then after == before
       else turns[0].leases == before && after == turns[|turns| - 1].after
  }

  lemma TurnTaken(b: Sys, trace: seq<Action>, part: seq<Action>, turn: Turn, order: seq<string>, workerId: string,
                  batchSize: nat, ttlMs: nat, maxAttempts: nat, claimThrows: bool, luck: nat -> Luck)
    requires turn.start == Run(b, trace) && forall id :: id in order ==> id in turn.start.ops
    requires var handed := Handed(order, turn.start.ops, turn.leases, batchSize, turn.start.now, maxAttempts);
             if claimThrows then turn.rejected && turn.n == 0 && turn.after == turn.leases
             else
               && turn.after == Leased(turn.leases, handed, Lease(workerId, turn.start.now + ttlMs))
               && if turn.rejected then 0 < turn.n <= |handed| && luck(turn.n - 1).handlerReadThrows
                  else turn.n == |handed|
    ensures TurnOk(b, trace + part, turn, order, workerId, batchSize, ttlMs, maxAttempts, claimThrows, luck)
  {
    hide OnTheWay, Handed, Leased, Run;
    WayTo(b, trace, part);
  }

  /** A turn of a later stretch is a turn of the whole run. */
  lemma TurnStarts(b: Sys, trace: seq<Action>, part: seq<Action>, turn: Turn, order: seq<string>, workerId: string,
                   batchSize: nat, ttlMs: nat, maxAttempts: nat, claimThrows: bool, luck: nat -> Luck)
    requires TurnOk(Run(b, trace), part, turn, order, workerId, batchSize, ttlMs, maxAttempts, claimThrows, luck)
    ensures TurnOk(b, trace + part, turn, order, workerId, batchSize, ttlMs, maxAttempts, claimThrows, luck)
  {
    hide OnTheWay, Handed, Leased, Run;
    WayOn(b, trace, part, turn.start);
  }

  lemma TurnStays(b: Sys, trace: seq<Action>, part: seq<Action>, turn: Turn, order: seq<string>, workerId: string,
                  batchSize: nat, ttlMs: nat, maxAttempts: nat, claimThrows: bool, luck: nat -> Luck)
    requires TurnOk(b, trace, turn, order, workerId, batchSize, ttlMs, maxAttempts, claimThrows, luck)
    ensures TurnOk(b, trace + part, turn, order, workerId, batchSize, ttlMs, maxAttempts, claimThrows, luck)
  {
    hide OnTheWay, Handed, Leased;
    WayOn(b, trace, part, turn.start);
  }

  ghost predicate TurnsOk(b: Sys, trace: seq<Action>, turns: seq<Turn>, order: seq<string>, workerId: string,
                          batchSize: nat, ttlMs: nat, maxAttempts: nat, claimThrows: nat -> bool,
                          luck: (nat, nat) -> Luck)
  {
    forall k :: 0 <= k < |turns| ==>
      TurnOk(b, trace, turns[k], order, workerId, batchSize, ttlMs, maxAttempts, claimThrows(k), Nth(luck, k))
  }

  lemma NoTurns(b: Sys, order: seq<string>, workerId: string, batchSize: nat, ttlMs: nat, maxAttempts: nat,
                claimThrows: nat -> bool, luck: (nat, nat) -> Luck)
    ensures TurnsOk(b, [], [], order, workerId, batchSize, ttlMs, maxAttempts, claimThrows, luck)
  {}

  lemma OneMoreTurnOk(b: Sys, trace: seq<Action>, part: seq<Action>, turns: seq<Turn>, turn: Turn, order: seq<string>,
                      workerId: string, batchSize: nat, ttlMs: nat, maxAttempts: nat, claimThrows: nat -> bool,
                      luck: (nat, nat) -> Luck)
    requires TurnsOk(b, trace, turns, order, workerId, batchSize, ttlMs, maxAttempts, claimThrows, luck)
    requires TurnOk(b, trace + part, turn, order, workerId, batchSize, ttlMs, maxAttempts, claimThrows(|turns|),
                    Nth(luck, |turns|))
    ensures TurnsOk(b, trace + part, turns + [turn], order, workerId, batchSize, ttlMs, maxAttempts, claimThrows, luck)
  {
    hide TurnOk;
    forall k | 0 <= k < |turns|
      ensures TurnOk(b, trace + part, turns[k], order, workerId, batchSize, ttlMs, maxAttempts, claimThrows(k),
                     Nth(luck, k))
    {
      TurnStays(b, trace, part, turns[k], order, workerId, batchSize, ttlMs, maxAttempts, claimThrows(k), Nth(luck, k));
    }
  }

  /** The handlers the store would refuse, over all turns. */
  function UnhandledIn(luck: (nat, nat) -> Luck, turns: seq<Turn>): nat {
    if turns == [] then 0
    else UnhandledIn(luck, turns[..|turns| - 1]) + Unhandled(Nth(luck, |turns| - 1), turns[|turns| - 1].n)
  }

  function Total(turns: seq<Turn>): nat {
    if turns == [] then 0 else Total(turns[..|turns| - 1]) + turns[|turns| - 1].n
  }

  lemma NoTurnsYet(luck: (nat, nat) -> Luck, leases: map<string, Lease>)
    ensures Total([]) == 0 && UnhandledIn(luck, []) == 0 && Chained([], leases, leases)
  {}

  lemma OneMoreChained(turns: seq<Turn>, turn: Turn, before: map<string, Lease>)
    requires Chained(turns, before, turn.leases)
    ensures Chained(turns + [turn], before, turn.after)
  {}

  lemma OneMoreTurn(luck: (nat, nat) -> Luck, turns: seq<Turn>, turn: Turn)
    ensures Total(turns + [turn]) == Total(turns) + turn.n
    ensures UnhandledIn(luck, turns + [turn]) == UnhandledIn(luck, turns) + Unhandled(Nth(luck, |turns|), turn.n)
  {
    assert (turns + [turn])[..|turns|] == turns;
  }

  // ----- the batch -----

  /** The state `s` is one that the run passes through. */
  ghost predicate OnTheWay(b: Sys, trace: seq<Action>, s: Sys) {
    exists k :: 0 <= k <= |trace| && s == Run(b, trace[..k])
  }

  lemma WayTo(b: Sys, trace: seq<Action>, rest: seq<Action>)
    ensures OnTheWay(b, trace + rest, Run(b, trace))
  {
    hide Run;
    assert (trace + rest)[..|trace|] == trace;
  }

  lemma WayOn(b: Sys, trace: seq<Action>, rest: seq<Action>, s: Sys)
    requires OnTheWay(b, trace, s) || OnTheWay(Run(b, trace), rest, s)
    ensures OnTheWay(b, trace + rest, s)
  {
    hide Run;
    if k :| 0 <= k <= |trace| && s == Run(b, trace[..k]) {
      assert (trace + rest)[..k] == trace[..k];
    } else {
      var k :| 0 <= k <= |rest| && s == Run(Run(b, trace), rest[..k]);
      RunConcat(b, trace, rest[..k]);
      assert (trace + rest)[..|trace| + k] == trace + rest[..k];
    }
  }

  lemma StillOnTheWay(b: Sys, trace: seq<Action>, rest: seq<Action>, starts: seq<Sys>, start: Sys)
    requires (forall s :: s in starts ==> OnTheWay(b, trace, s)) && OnTheWay(Run(b, trace), rest, start)
    ensures forall s :: s in starts + [start] ==> OnTheWay(b, trace + rest, s)
  {
    hide OnTheWay, Run;
    forall s | s in starts + [start] ensures OnTheWay(b, trace + rest, s) { WayOn(b, trace, rest, s); }
  }

  lemma OnTheLongerWay(b: Sys, before: seq<Action>, trace: seq<Action>, after: seq<Action>, starts: seq<Sys>)
    requires forall s :: s in starts ==> OnTheWay(Run(b, before), trace, s)
    ensures forall s :: s in starts ==> OnTheWay(b, (before + trace) + after, s)
  {
    hide OnTheWay, Run;
    forall s | s in starts ensures OnTheWay(b, (before + trace) + after, s) {
      WayOn(b, before, trace, s);
      WayOn(b, before + trace, after, s);
    }
  }

  lemma TickDelays(b: Sys, ms: nat)
    ensures Step(b, Tick(ms)) == Delayed(b, ms)
  {}

  lemma Later(op: Operation, now: nat, t: nat, maxAttempts: nat)
    requires Claimable(op, map[], now, maxAttempts) && now <= t
    ensures Claimable(op, map[], t, maxAttempts)
  {}

  /** The state a claim starts from differs from the one its copy was taken in by that copy alone. */
  lemma TakenLooksAlike(record: Operation, w: Weather, b: Sys, who: string)
    requires record.phase == Signed ==> record.signed.Some?
    ensures var taken := Taken(b, who, record.operationId);
            AfterProcess(record, w, b)
            == if record.phase != Signed then AfterReconcile(record, w, taken)
               else AfterSubmit(record, record.signed.value.payload, record.signed.value.signer,
                                record.signed.value.payload, w, taken)
  {
    hide AfterPollAndConfirm, S.Submit, S.Signed, AfterRetry, MayMove;
    var taken := Taken(b, who, record.operationId);
    PollLooksAtTheChain(record, w, b, taken);
    if record.phase == Signed {
      var payload := record.signed.value.payload;
      PollLooksAtTheChain(record.(txHash := Some(S.Sha256(payload)), phase := Submitted), w,
                          Transmit(b, record.operationId, payload, w.staysPending),
                          Transmit(taken, record.operationId, payload, w.staysPending));
    }
  }

  lemma HandedAre(b: Sys, order: seq<string>, leases: map<string, Lease>, batchSize: nat, now: nat, maxAttempts: nat)
    requires b.now == now && b.maxAttempts == maxAttempts && Distinct(order)
    requires forall id :: id in order ==> id in b.ops && b.ops[id].operationId == id
    ensures var r := Handed(order, b.ops, leases, batchSize, now, maxAttempts);
            && (forall op :: op in r ==>
                op.operationId in b.ops && b.ops[op.operationId] == op && Actionable(b, op)
                && Claimable(op, map[], now, maxAttempts))
            && (forall i, j :: 0 <= i < j < |r| ==> r[i].operationId != r[j].operationId)
  {
    hide Claimables;
    ClaimablesAre(order, b.ops, leases, now, maxAttempts);
  }

  /** What is claimed and stored under other ids stays. */
  ghost predicate Others(who: string, b: Sys, byId: map<string, Operation>, b': Sys, byId': map<string, Operation>,
                         id: string)
  {
    forall record: Operation ::
      record.operationId != id && StillClaimed(who, b, byId, record) ==> StillClaimed(who, b', byId', record)
  }

  lemma OthersStay(who: string, b: Sys, b': Sys, id: string)
    requires id in b'.ops && b'.ops == b.ops[id := b'.ops[id]] && b'.claimed == b.claimed - {Copy(who, id)}
    ensures Others(who, b, b.ops, b', b'.ops, id)
  {}

  lemma AllOthers(who: string, b: Sys, byId: map<string, Operation>, b': Sys, byId': map<string, Operation>,
                  batch: seq<Operation>, i: nat)
    requires i < |batch| && Others(who, b, byId, b', byId', batch[i].operationId)
    requires forall j, k :: 0 <= j < k < |batch| ==> batch[j].operationId != batch[k].operationId
    requires forall j :: i <= j < |batch| ==> StillClaimed(who, b, byId, batch[j])
    ensures forall j :: i < j < |batch| ==> StillClaimed(who, b', byId', batch[j])
  {}

  lemma OneSpent(order: seq<string>, before: map<string, Operation>, after: Operation, maxAttempts: nat)
    requires Distinct(order) && forall i :: i in order <==> i in before
    requires after.operationId in before && WithinLimit(before, maxAttempts) && Limited(after, maxAttempts)
    requires Cost(after, maxAttempts) <= Cost(before[after.operationId], maxAttempts)
    ensures var byId := before[after.operationId := after];
            && WithinLimit(byId, maxAttempts)
            && Budget(order, byId, maxAttempts) + Cost(before[after.operationId], maxAttempts)
               == Budget(order, before, maxAttempts) + Cost(after, maxAttempts)
  {
    hide Budget, Cost, Limited;
    BudgetUpdate(order, before, after.operationId, after, maxAttempts);
  }

  function Delayed(b: Sys, ms: nat): Sys {
    b.(now := b.now + ms)
  }

  /** The copy the worker claimed is still the stored record. */
  predicate StillClaimed(who: string, b: Sys, byId: map<string, Operation>, record: Operation) {
    var id := record.operationId;
    && Copy(who, id) in b.claimed && b.claimed[Copy(who, id)] == record && id in byId && byId[id] == record
  }

  /** Every record of a claimed batch can be claimed in the protocol, one after the other. */
  lemma {:induction false} ClaimAll(who: string, b: Sys, batch: seq<Operation>) returns (trace: seq<Action>)
    requires b.calls == map[]
    requires forall op :: op in batch ==> op.operationId in b.ops && b.ops[op.operationId] == op && Actionable(b, op)
    requires forall i, j :: 0 <= i < j < |batch| ==> batch[i].operationId != batch[j].operationId
    ensures var s := Run(b, trace);
            && s == b.(claimed := s.claimed)
            && (forall j :: 0 <= j < |batch| ==> StillClaimed(who, s, b.ops, batch[j]))
    decreases |batch|
  {
    hide Step, Actionable;
    if batch == [] {
      trace := [];
    } else {
      var rest, last := batch[..|batch| - 1], batch[|batch| - 1];
      assert batch == rest + [last];
      var before := ClaimAll(who, b, rest);
      RunSnoc(b, before, Claim(last.operationId, who));
      StillActionable(b, Run(b, before), last);
      ClaimOne(who, Run(b, before), last);
      trace := before + [Claim(last.operationId, who)];
    }
  }

  lemma StillActionable(b: Sys, s: Sys, op: Operation)
    requires Actionable(b, op) && s.now == b.now && s.maxAttempts == b.maxAttempts
    ensures Actionable(s, op)
  {}

  lemma ClaimOne(who: string, s: Sys, op: Operation)
    requires s.calls == map[] && op.operationId in s.ops && s.ops[op.operationId] == op && Actionable(s, op)
    ensures Step(s, Claim(op.operationId, who)) == s.(claimed := s.claimed[Copy(who, op.operationId) := op])
  {}

  /** The copies of a batch that is given up are dropped, one after the other. */
  lemma {:induction false} ForgetAll(who: string, b: Sys, batch: seq<Operation>) returns (trace: seq<Action>)
    ensures var s := Run(b, trace); s == b.(claimed := s.claimed)
    decreases |batch|
  {
    hide Step, Run;
    RunNothing(b);
    if batch == [] {
      trace := [];
    } else {
      var rest, last := batch[..|batch| - 1], batch[|batch| - 1];
      var before := ForgetAll(who, b, rest);
      RunSnoc(b, before, WorkerForgets(last.operationId, who));
      ForgetOne(who, Run(b, before), last.operationId);
      trace := before + [WorkerForgets(last.operationId, who)];
    }
  }

  lemma ForgetOne(who: string, s: Sys, id: string)
    ensures Step(s, WorkerForgets(id, who)) == s.(claimed := s.claimed - {Copy(who, id)})
  {}
}
