/** InMemoryOperationStore: operations by id and by key, and leases on the records handed to workers. */
module OperationStore {
  import opened Common
  import opened Operations

  datatype Lease = Lease(workerId: string, until: nat)

  /** Phases a worker may pick up. */
  predicate ActionablePhase(p: Phase) {
    p in {Signed, Submitted, Confirming, FailedRetryable, Unknown, Restoring}
  }

  /** `claimBatch` may hand this record out now: it has work, attempts left, its backoff and any lease have run out. */
  predicate Claimable(op: Operation, leases: map<string, Lease>, now: nat, maxAttempts: nat) {
    && ActionablePhase(op.phase)
    && op.attemptCount < maxAttempts
    && (op.nextRetryAt.Some? ==> op.nextRetryAt.value <= now)
    && (op.operationId in leases ==> leases[op.operationId].until <= now)
  }

  /** The claimable records among `order`, in that order. */
  function Claimables(order: seq<string>, byId: map<string, Operation>, leases: map<string, Lease>, now: nat,
                      maxAttempts: nat): seq<Operation>
    requires forall id :: id in order ==> id in byId
  {
    if order == [] then [] else
      var last := byId[order[|order| - 1]];
      Claimables(order[..|order| - 1], byId, leases, now, maxAttempts)
      + if Claimable(last, leases, now, maxAttempts) then [last] else []
  }

  /** What one batch hands out: the first claimable records, one even for a batch size of 0. */
  function Handed(order: seq<string>, byId: map<string, Operation>, leases: map<string, Lease>, batchSize: nat,
                  now: nat, maxAttempts: nat): seq<Operation>
    requires forall id :: id in order ==> id in byId
  {
    var all, size := Claimables(order, byId, leases, now, maxAttempts), if batchSize == 0 then 1 else batchSize;
    all[..if |all| < size then |all| else size]
  }

  function Ids(ops: seq<Operation>): set<string> {
    set op | op in ops :: op.operationId
  }

  function Leased(leases: map<string, Lease>, ops: seq<Operation>, lease: Lease): map<string, Lease> {
    leases + map id | id in Ids(ops) :: lease
  }

  predicate Distinct<T(==)>(s: seq<T>) {
    forall i, j :: 0 <= i < j < |s| ==> s[i] != s[j]
  }

  lemma LeaseOneMore(leases: map<string, Lease>, ops: seq<Operation>, op: Operation, lease: Lease)
    ensures Leased(leases, ops + [op], lease) == Leased(leases, ops, lease)[op.operationId := lease]
  {
    assert Ids(ops + [op]) == Ids(ops) + {op.operationId};
  }

  lemma {:induction false} ClaimablesAre(order: seq<string>, byId: map<string, Operation>, leases: map<string, Lease>,
                                         now: nat, maxAttempts: nat)
    requires forall id :: id in order ==> id in byId && byId[id].operationId == id
    requires Distinct(order)
    ensures var r := Claimables(order, byId, leases, now, maxAttempts);
            && (forall op :: op in r ==>
                op.operationId in order && op == byId[op.operationId] && Claimable(op, leases, now, maxAttempts))
            && (forall id :: id in order && Claimable(byId[id], leases, now, maxAttempts) ==> byId[id] in r)
            && (forall i, j :: 0 <= i < j < |r| ==> r[i].operationId != r[j].operationId)
    decreases |order|
  {
    if order != [] {
      var rest, last := order[..|order| - 1], order[|order| - 1];
      assert order == rest + [last] && last !in rest;
      ClaimablesAre(rest, byId, leases, now, maxAttempts);
      var r0, r := Claimables(rest, byId, leases, now, maxAttempts), Claimables(order, byId, leases, now, maxAttempts);
      assert r == r0 + if Claimable(byId[last], leases, now, maxAttempts) then [byId[last]] else [];
      forall i, j | 0 <= i < j < |r| ensures r[i].operationId != r[j].operationId {
        assert r[i] in r0;
      }
    }
  }

  function CountPhase(order: seq<string>, byId: map<string, Operation>, p: Phase): nat
    requires forall id :: id in order ==> id in byId
  {
    if order == [] then 0 else
      CountPhase(order[..|order| - 1], byId, p) + if byId[order[|order| - 1]].phase == p then 1 else 0
  }

  const ALL_PHASES :=
    [AwaitingSignature, Signed, Submitted, Confirming, Confirmed, FailedRetryable, FailedTerminal, Unknown, Restoring]

  class Store {
    var byId: map<string, Operation>
    var order: seq<string> // insertion order of byId
    var byKey: map<string, string>
    var leases: map<string, Lease>

    ghost predicate Valid()
      reads this
    {
      && (forall id :: id in byId <==> id in order)
      && (forall id :: id in byId ==> byId[id].operationId == id)
      && Distinct(order)
    }

    constructor ()
      ensures Valid() && byId == map[] && byKey == map[] && leases == map[]
    {
      byId, order, byKey, leases := map[], [], map[], map[];
    }

    method FindByIdempotencyKey(key: string) returns (r: Option<Operation>)
      ensures r == if key in byKey && byKey[key] in byId then Some(byId[byKey[key]]) else None
    {
      if key in byKey && byKey[key] in byId { return Some(byId[byKey[key]]); }
      return None;
    }

    /** Refused when the key is bound; the existing binding and record stay. */
    method Create(record: Operation) returns (created: bool)
      requires Valid()
      modifies this`byId, this`byKey, this`order
      ensures Valid()
      ensures created == (record.idempotencyKey !in old(byKey))
      ensures byId == if created then old(byId)[record.operationId := record] else old(byId)
      ensures byKey == if created then old(byKey)[record.idempotencyKey := record.operationId] else old(byKey)
      ensures old(order) <= order
    {
      if record.idempotencyKey in byKey { return false; }
      if record.operationId !in byId {
        order := order + [record.operationId];
      }
      byId := byId[record.operationId := record];
      byKey := byKey[record.idempotencyKey := record.operationId];
      return true;
    }

    method SaveRecord(record: Operation) returns (saved: bool)
      requires Valid()
      modifies this`byId
      ensures Valid()
      ensures saved == (record.operationId in old(byId))
      ensures byId == if saved then old(byId)[record.operationId := record] else old(byId)
    {
      if record.operationId !in byId { return false; }
      byId := byId[record.operationId := record];
      return true;
    }

    /** Hands out the first claimable records in insertion order (one even when the batch size is 0) and leases them. */
    method ClaimBatch(batchSize: nat, workerId: string, ttlMs: nat, maxAttempts: nat, now: nat)
      returns (results: seq<Operation>)
      requires Valid()
      modifies this`leases
      ensures Valid()
      ensures results == Handed(order, byId, old(leases), batchSize, now, maxAttempts)
      ensures HandsOutTheFirst(results, order, byId, old(leases), batchSize, now, maxAttempts)
      ensures leases == Leased(old(leases), results, Lease(workerId, now + ttlMs))
    {
      hide Claimables, Leased, HandsOutTheFirst;
      results := [];
      HandedAreTheFirst(order, byId, leases, batchSize, now, maxAttempts);
      NothingClaimed(order, byId, leases, now, maxAttempts, Lease(workerId, now + ttlMs));
      ghost var limit := if batchSize == 0 then 1 else batchSize;
      var i := 0;
      while i < |order|
        invariant 0 <= i <= |order|
        invariant results == Claimables(order[..i], byId, old(leases), now, maxAttempts)
        invariant |results| < limit
        invariant leases == Leased(old(leases), results, Lease(workerId, now + ttlMs))
      {
        var record := byId[order[i]];
        ClaimablesStep(order, i, byId, old(leases), now, maxAttempts);
        NotYetLeased(order, i, byId, old(leases), now, maxAttempts, results, Lease(workerId, now + ttlMs));
        if ActionablePhase(record.phase) && record.attemptCount < maxAttempts
           && !(record.nextRetryAt.Some? && record.nextRetryAt.value > now)
           && !(record.operationId in leases && leases[record.operationId].until > now)
        {
          LeaseOneMore(old(leases), results, record, Lease(workerId, now + ttlMs));
          leases := leases[record.operationId := Lease(workerId, now + ttlMs)];
          results := results + [record];
          if |results| >= batchSize {
            ClaimablesGrow(order, i + 1, byId, old(leases), now, maxAttempts);
            return;
          }
        }
        i := i + 1;
      }
      assert order[..i] == order;
      assert results[..|results|] == results;
    }

    /** Every phase is counted, absent ones as 0. */
    method CountByPhase() returns (counts: map<Phase, nat>)
      requires Valid()
      ensures forall p: Phase :: p in counts && counts[p] == CountPhase(order, byId, p)
                                 && counts[p] == |WithPhase(byId, p)|
    {
      hide WithPhase;
      counts := map p | p in ALL_PHASES :: 0;
      assert forall p: Phase :: p in counts by {
        forall p: Phase ensures p in ALL_PHASES {
          assert p == AwaitingSignature ==> ALL_PHASES[0] == p;
          assert p == Signed ==> ALL_PHASES[1] == p;
          assert p == Submitted ==> ALL_PHASES[2] == p;
          assert p == Confirming ==> ALL_PHASES[3] == p;
          assert p == Confirmed ==> ALL_PHASES[4] == p;
          assert p == FailedRetryable ==> ALL_PHASES[5] == p;
          assert p == FailedTerminal ==> ALL_PHASES[6] == p;
          assert p == Unknown ==> ALL_PHASES[7] == p;
          assert p == Restoring ==> ALL_PHASES[8] == p;
        }
      }
      var i := 0;
      while i < |order|
        invariant 0 <= i <= |order|
        invariant forall p: Phase :: p in counts && counts[p] == CountPhase(order[..i], byId, p)
      {
        assert order[..i + 1][..i] == order[..i];
        var p := byId[order[i]].phase;
        counts := counts[p := counts[p] + 1];
        i := i + 1;
      }
      assert order[..i] == order;
      forall p: Phase ensures CountPhase(order, byId, p) == |WithPhase(byId, p)| { CountsThem(order, byId, p); }
    }
  }

  lemma NothingClaimed(order: seq<string>, byId: map<string, Operation>, leases: map<string, Lease>, now: nat,
                       maxAttempts: nat, lease: Lease)
    requires forall id :: id in order ==> id in byId
    ensures Claimables(order[..0], byId, leases, now, maxAttempts) == [] && Leased(leases, [], lease) == leases
  {}

  lemma NotYetLeased(order: seq<string>, i: nat, byId: map<string, Operation>, leases: map<string, Lease>, now: nat,
                     maxAttempts: nat, results: seq<Operation>, lease: Lease)
    requires i < |order| && Distinct(order) && forall id :: id in order ==> id in byId && byId[id].operationId == id
    requires results == Claimables(order[..i], byId, leases, now, maxAttempts)
    ensures var id := order[i];
            (id in Leased(leases, results, lease) <==> id in leases)
              && (id in leases ==> Leased(leases, results, lease)[id] == leases[id])
  {
    ClaimablesAre(order[..i], byId, leases, now, maxAttempts);
  }

  lemma ClaimablesStep(order: seq<string>, i: nat, byId: map<string, Operation>, leases: map<string, Lease>, now: nat,
                       maxAttempts: nat)
    requires i < |order| && forall id :: id in order ==> id in byId
    ensures Claimables(order[..i + 1], byId, leases, now, maxAttempts)
            == Claimables(order[..i], byId, leases, now, maxAttempts)
               + if Claimable(byId[order[i]], leases, now, maxAttempts) then [byId[order[i]]] else []
  {
    assert order[..i + 1][..i] == order[..i];
  }

  lemma {:induction false} ClaimablesGrow(order: seq<string>, i: nat, byId: map<string, Operation>,
                                          leases: map<string, Lease>, now: nat, maxAttempts: nat)
    requires i <= |order| && forall id :: id in order ==> id in byId
    ensures Claimables(order[..i], byId, leases, now, maxAttempts) <= Claimables(order, byId, leases, now, maxAttempts)
    decreases |order|
  {
    if i == |order| {
      assert order[..i] == order;
    } else {
      ClaimablesGrow(order[..|order| - 1], i, byId, leases, now, maxAttempts);
      assert order[..|order| - 1][..i] == order[..i];
    }
  }

  // ----- series of batches -----

  /** One claimBatch call, by any worker, on whatever the store holds by then. */
  datatype Batch = Batch(order: seq<string>, byId: map<string, Operation>, size: nat, lease: Lease, now: nat,
                         maxAttempts: nat) {
    ghost predicate Ok() {
      Distinct(order) && forall id :: id in order ==> id in byId && byId[id].operationId == id
    }
  }

  ghost function HandedBy(leases: map<string, Lease>, b: Batch): seq<Operation>
    requires b.Ok()
  {
    Handed(b.order, b.byId, leases, b.size, b.now, b.maxAttempts)
  }

  /** The leases after a series of batches. */
  ghost function LeasesAfter(leases: map<string, Lease>, batches: seq<Batch>): map<string, Lease>
    requires forall b :: b in batches ==> b.Ok()
  {
    if batches == [] then leases
    else
      var before, b := LeasesAfter(leases, batches[..|batches| - 1]), batches[|batches| - 1];
      assert b in batches;
      Leased(before, HandedBy(before, b), b.lease)
  }

  lemma HandedIsClaimable(leases: map<string, Lease>, b: Batch, op: Operation)
    requires b.Ok() && op in HandedBy(leases, b)
    ensures Claimable(op, leases, b.now, b.maxAttempts)
  {
    ClaimablesAre(b.order, b.byId, leases, b.now, b.maxAttempts);
  }

  /** A lease that has not run out is not handed out, and stays. */
  lemma LeaseStays(leases: map<string, Lease>, b: Batch, id: string)
    requires b.Ok() && id in leases && b.now < leases[id].until
    ensures id !in Ids(HandedBy(leases, b))
    ensures id in Leased(leases, HandedBy(leases, b), b.lease)
            && Leased(leases, HandedBy(leases, b), b.lease)[id] == leases[id]
  {
    hide Handed;
    forall op | op in HandedBy(leases, b) ensures op.operationId != id {
      HandedIsClaimable(leases, b, op);
    }
  }

  lemma {:induction false} LeaseOutlives(leases: map<string, Lease>, batches: seq<Batch>, id: string)
    requires (forall b :: b in batches ==> b.Ok()) && id in leases
             && forall b :: b in batches ==> b.now < leases[id].until
    ensures id in LeasesAfter(leases, batches) && LeasesAfter(leases, batches)[id] == leases[id]
    decreases |batches|
  {
    hide HandedBy;
    if batches != [] {
      var rest, b := batches[..|batches| - 1], batches[|batches| - 1];
      assert batches == rest + [b];
      LeaseOutlives(leases, rest, id);
      LeaseStays(LeasesAfter(leases, rest), b, id);
    }
  }

  lemma {:induction false} LeasesAfterConcat(leases: map<string, Lease>, a: seq<Batch>, b: seq<Batch>)
    requires (forall x :: x in a ==> x.Ok()) && forall x :: x in b ==> x.Ok()
    ensures LeasesAfter(leases, a + b) == LeasesAfter(LeasesAfter(leases, a), b)
    decreases |b|
  {
    hide HandedBy;
    if b == [] {
      assert a + b == a;
    } else {
      LeasesAfterConcat(leases, a, b[..|b| - 1]);
      assert (a + b)[..|a + b| - 1] == a + b[..|b| - 1];
    }
  }

  /**
   * A lease excludes: in any series of batches, claimed by anyone from stores that change in between,
   * a record handed out by one is in no other batch that comes before its lease runs out.
   */
  lemma LeasesExclude(leases: map<string, Lease>, first: Batch, between: seq<Batch>, last: Batch)
    requires first.Ok() && last.Ok() && forall b :: b in between ==> b.Ok() && b.now <= last.now
    requires last.now < first.lease.until
    ensures var start := LeasesAfter(leases, [first]);
            var now := LeasesAfter(leases, [first] + between);
            start == Leased(leases, HandedBy(leases, first), first.lease)
            && Ids(HandedBy(leases, first)) !! Ids(HandedBy(now, last))
  {
    hide HandedBy;
    assert [first][..0] == [];
    var start := LeasesAfter(leases, [first]);
    LeasesAfterConcat(leases, [first], between);
    forall id | id in Ids(HandedBy(leases, first))
      ensures id !in Ids(HandedBy(LeasesAfter(leases, [first] + between), last))
    {
      assert id in start && start[id] == first.lease;
      LeaseOutlives(start, between, id);
      LeaseStays(LeasesAfter(leases, [first] + between), last, id);
    }
  }

  // ----- which records a batch hands out -----

  /** A worker may pick up what is signed or further, and not over. */
  lemma ActionableExactlyWhen(p: Phase)
    ensures ActionablePhase(p) <==> !IsTerminal(p) && p != AwaitingSignature
  {}

  /** At most so many records, one even for a batch size of 0. */
  function Room(batchSize: nat): nat {
    if batchSize == 0 then 1 else batchSize
  }

  /**
   * The records handed out are claimable, at most as many as there is room for, in insertion order; and
   * one that could be claimed and is not handed out is behind a full batch of others.
   */
  ghost predicate HandsOutTheFirst(r: seq<Operation>, order: seq<string>, byId: map<string, Operation>,
                                   leases: map<string, Lease>, batchSize: nat, now: nat, maxAttempts: nat)
    requires forall id :: id in order ==> id in byId
  {
    && |r| <= Room(batchSize)
    && (forall op :: op in r ==> op.operationId in order && byId[op.operationId] == op)
    && (forall op :: op in r ==>
          && !IsTerminal(op.phase) && op.phase != AwaitingSignature && op.attemptCount < maxAttempts
          && (op.nextRetryAt.Some? ==> op.nextRetryAt.value <= now)
          && (op.operationId in leases ==> leases[op.operationId].until <= now))
    && (forall i, j :: 0 <= i < j < |r| ==> Precedes(order, r[i].operationId, r[j].operationId))
    && (forall id :: id in order && byId[id] !in r
                     && !IsTerminal(byId[id].phase) && byId[id].phase != AwaitingSignature
                     && byId[id].attemptCount < maxAttempts
                     && (byId[id].nextRetryAt.Some? ==> byId[id].nextRetryAt.value <= now)
                     && (byId[id].operationId in leases ==> leases[byId[id].operationId].until <= now) ==>
          |r| == Room(batchSize) && forall op :: op in r ==> Precedes(order, op.operationId, id))
  }

  ghost predicate Precedes(order: seq<string>, a: string, b: string) {
    exists i, j :: 0 <= i < j < |order| && order[i] == a && order[j] == b
  }

  lemma PrecedesInMore(order: seq<string>, more: seq<string>, a: string, b: string)
    requires Precedes(order, a, b)
    ensures Precedes(order + more, a, b)
  {
    var i, j :| 0 <= i < j < |order| && order[i] == a && order[j] == b;
    assert (order + more)[i] == a && (order + more)[j] == b;
  }

  lemma PrecedesTheLast(order: seq<string>, a: string, b: string)
    requires a in order
    ensures Precedes(order + [b], a, b)
  {
    var i :| 0 <= i < |order| && order[i] == a;
    assert (order + [b])[i] == a && (order + [b])[|order|] == b;
  }

  /** The claimable records come in insertion order. */
  lemma {:induction false} ClaimablesInOrder(order: seq<string>, byId: map<string, Operation>,
                                             leases: map<string, Lease>, now: nat, maxAttempts: nat)
    requires forall id :: id in order ==> id in byId && byId[id].operationId == id
    requires Distinct(order)
    ensures var r := Claimables(order, byId, leases, now, maxAttempts);
            forall i, j :: 0 <= i < j < |r| ==> Precedes(order, r[i].operationId, r[j].operationId)
    decreases |order|
  {
    hide Precedes, Claimable;
    if order != [] {
      var rest, last := order[..|order| - 1], order[|order| - 1];
      assert order == rest + [last];
      ClaimablesInOrder(rest, byId, leases, now, maxAttempts);
      ClaimablesAre(rest, byId, leases, now, maxAttempts);
      var r0, r := Claimables(rest, byId, leases, now, maxAttempts), Claimables(order, byId, leases, now, maxAttempts);
      forall i, j | 0 <= i < j < |r| ensures Precedes(order, r[i].operationId, r[j].operationId) {
        assert r[i] == r0[i] && r[i] in r0;
        if j < |r0| {
          PrecedesInMore(rest, [last], r[i].operationId, r[j].operationId);
        } else {
          PrecedesTheLast(rest, r[i].operationId, last);
        }
      }
    }
  }

  /** A batch is a front part of the claimable records, all of them or as many as there is room for. */
  lemma HandedIsAPrefix(order: seq<string>, byId: map<string, Operation>, leases: map<string, Lease>, batchSize: nat,
                        now: nat, maxAttempts: nat)
    requires forall id :: id in order ==> id in byId
    ensures var r, all := Handed(order, byId, leases, batchSize, now, maxAttempts),
            Claimables(order, byId, leases, now, maxAttempts);
            r <= all && |r| <= Room(batchSize) && (|r| < |all| ==> |r| == Room(batchSize))
  {
    hide Claimables;
  }

  lemma ClaimableMeans(op: Operation, leases: map<string, Lease>, now: nat, maxAttempts: nat)
    ensures Claimable(op, leases, now, maxAttempts)
            <==> && !IsTerminal(op.phase) && op.phase != AwaitingSignature && op.attemptCount < maxAttempts
                 && (op.nextRetryAt.Some? ==> op.nextRetryAt.value <= now)
                 && (op.operationId in leases ==> leases[op.operationId].until <= now)
  {}

  lemma HandedAreTheFirst(order: seq<string>, byId: map<string, Operation>, leases: map<string, Lease>, batchSize: nat,
                          now: nat, maxAttempts: nat)
    requires Distinct(order) && forall id :: id in order ==> id in byId && byId[id].operationId == id
    ensures HandsOutTheFirst(Handed(order, byId, leases, batchSize, now, maxAttempts), order, byId, leases, batchSize,
                             now, maxAttempts)
  {
    hide Precedes, Handed, Claimables, Claimable, ActionablePhase, Room, IsTerminal;
    var all := Claimables(order, byId, leases, now, maxAttempts);
    var r := Handed(order, byId, leases, batchSize, now, maxAttempts);
    HandedIsAPrefix(order, byId, leases, batchSize, now, maxAttempts);
    ClaimablesAre(order, byId, leases, now, maxAttempts);
    ClaimablesInOrder(order, byId, leases, now, maxAttempts);
    forall op | op in r ensures op in all { InPrefix(r, all, op); }
    forall op: Operation
      ensures Claimable(op, leases, now, maxAttempts)
              <==> && !IsTerminal(op.phase) && op.phase != AwaitingSignature && op.attemptCount < maxAttempts
                   && (op.nextRetryAt.Some? ==> op.nextRetryAt.value <= now)
                   && (op.operationId in leases ==> leases[op.operationId].until <= now)
    {
      ClaimableMeans(op, leases, now, maxAttempts);
    }
    forall id | id in order && Claimable(byId[id], leases, now, maxAttempts) && byId[id] !in r
      ensures |r| == Room(batchSize) && forall op :: op in r ==> Precedes(order, op.operationId, id)
    {
      LeftOutIsBehind(order, r, all, byId[id]);
    }
  }

  lemma InPrefix<T>(r: seq<T>, all: seq<T>, x: T)
    requires r <= all && x in r
    ensures x in all
  {
    var i :| 0 <= i < |r| && r[i] == x;
    assert all[i] == x;
  }

  lemma LeftOutIsBehind(order: seq<string>, r: seq<Operation>, all: seq<Operation>, left: Operation)
    requires r <= all && left in all && left !in r
    requires forall i, j :: 0 <= i < j < |all| ==> Precedes(order, all[i].operationId, all[j].operationId)
    ensures |r| < |all| && forall op :: op in r ==> Precedes(order, op.operationId, left.operationId)
  {
    hide Precedes;
    var j :| 0 <= j < |all| && all[j] == left;
    assert forall k :: 0 <= k < |r| ==> r[k] == all[k] && r[k] in r;
    forall op | op in r ensures Precedes(order, op.operationId, left.operationId) {
      var i :| 0 <= i < |r| && r[i] == op;
      assert all[i] == op;
    }
  }

  /** A batch is empty exactly when nothing can be claimed, and full or it holds all that can be. */
  lemma EmptyExactlyWhenNothingIsClaimable(order: seq<string>, byId: map<string, Operation>,
                                           leases: map<string, Lease>, batchSize: nat, now: nat, maxAttempts: nat)
    requires Distinct(order) && forall id :: id in order ==> id in byId && byId[id].operationId == id
    ensures var r := Handed(order, byId, leases, batchSize, now, maxAttempts);
            r == [] <==> forall id :: id in order ==> !Claimable(byId[id], leases, now, maxAttempts)
  {
    HandedAreTheFirst(order, byId, leases, batchSize, now, maxAttempts);
    ClaimablesAre(order, byId, leases, now, maxAttempts);
    var r := Handed(order, byId, leases, batchSize, now, maxAttempts);
    if r != [] {
      assert r[0] in r && r[0] == Claimables(order, byId, leases, now, maxAttempts)[0];
      assert r[0].operationId in order;
    }
  }

  /** The batch leases what it hands out, under its own lease, and leaves every other lease as it is. */
  lemma LeasesExactlyWhatIsHanded(leases: map<string, Lease>, ops: seq<Operation>, lease: Lease, id: string)
    ensures var after := Leased(leases, ops, lease);
            if exists op :: op in ops && op.operationId == id then id in after && after[id] == lease
            else (id in after <==> id in leases) && (id in leases ==> after[id] == leases[id])
  {}

  /** The count of a phase is the number of records in it. */
  lemma {:induction false} CountsTheRecords(order: seq<string>, byId: map<string, Operation>, p: Phase)
    requires Distinct(order) && forall id :: id in order ==> id in byId
    ensures CountPhase(order, byId, p) == |InPhase(order, byId, p)|
    decreases |order|
  {
    if order != [] {
      var rest, last := order[..|order| - 1], order[|order| - 1];
      assert order == rest + [last];
      CountsTheRecords(rest, byId, p);
      assert last !in InPhase(rest, byId, p);
    }
  }

  /** The records in a phase. */
  ghost function WithPhase(byId: map<string, Operation>, p: Phase): set<string> {
    set id | id in byId && byId[id].phase == p
  }

  lemma CountsThem(order: seq<string>, byId: map<string, Operation>, p: Phase)
    requires Distinct(order) && forall id :: id in order <==> id in byId
    ensures CountPhase(order, byId, p) == |WithPhase(byId, p)|
  {
    CountsTheRecords(order, byId, p);
    assert WithPhase(byId, p) == InPhase(order, byId, p);
  }

  function InPhase(order: seq<string>, byId: map<string, Operation>, p: Phase): (ids: set<string>)
    requires forall id :: id in order ==> id in byId
    ensures forall id :: id in ids <==> id in order && byId[id].phase == p
  {
    if order == [] then {}
    else
      var last := order[|order| - 1];
      assert forall id :: id in order <==> id in order[..|order| - 1] || id == last;
      InPhase(order[..|order| - 1], byId, p) + if byId[last].phase == p then {last} else {}
  }

  // ----- calls under a lease -----

  /** One processed claim: the call that a batch's record was handed out for, from start to end. */
  datatype Call = Call(batch: nat, operationId: string, start: nat, end: nat)

  /** The claim was handed out by its batch, and its call runs while the lease lasts. */
  ghost predicate UnderItsLease(leases: map<string, Lease>, batches: seq<Batch>, c: Call)
    requires forall b :: b in batches ==> b.Ok()
  {
    && c.batch < |batches|
    && c.operationId in Ids(HandedBy(LeasesAfter(leases, batches[..c.batch]), batches[c.batch]))
    && batches[c.batch].now <= c.start <= c.end < batches[c.batch].lease.until
  }

  /**
   * Calls that end within their leases never overlap on one operation, whoever makes them: of two claims
   * of it, in a series of batches in the order of the clock, the earlier call ends before the later one
   * starts.
   */
  lemma LeasedCallsNeverOverlap(leases: map<string, Lease>, batches: seq<Batch>, x: Call, y: Call)
    requires forall b :: b in batches ==> b.Ok()
    requires forall i, j :: 0 <= i < j < |batches| ==> batches[i].now <= batches[j].now
    requires UnderItsLease(leases, batches, x) && UnderItsLease(leases, batches, y)
    requires x.operationId == y.operationId && x.batch < y.batch
    ensures x.end < y.start
  {
    hide HandedBy, LeasesAfter;
    var i, j := x.batch, y.batch;
    var before, first, between, last := batches[..i], batches[i], batches[i + 1..j], batches[j];
    if y.start <= x.end {
      assert batches[..j] == (before + [first]) + between;
      assert forall b :: b in between ==> b in batches[i + 1..j];
      LeasesAfterConcat(leases, before, [first]);
      LeasesAfterConcat(leases, before + [first], between);
      LeasesAfterConcat(LeasesAfter(leases, before), [first], between);
      LeasesExclude(LeasesAfter(leases, before), first, between, last);
      assert false;
    }
  }
}
