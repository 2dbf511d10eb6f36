/**
 * From the gateway to the contracts: an operation that is confirmed, in any run, is in the registries
 * that would have received the same calls, with ids replaced by their digests.
 */
module EndToEnd {
  import opened Common
  import opened Commands
  import opened Operations
  import opened Protocol
  import opened ProtocolInvariant
  import opened ProtocolSteps
  import opened ProtocolSafety
  import opened ProtocolRecovery
  import opened ProtocolChain
  import opened Renaming
  import S = SimulatedChain
  import R = ChainRefinement

  // ----- the chain of a run is what its wire makes of it -----

  function Calls(wire: seq<Sent>): seq<S.Call> {
    if wire == [] then []
    else
      var p := wire[|wire| - 1].payload;
      Calls(wire[..|wire| - 1]) + if p.Envelope? then [p.call] else []
  }

  function Bare(c: S.Chain): S.Chain {
    c.(pending := map[])
  }

  ghost predicate WireTells(s: Sys) {
    Bare(s.chain) == ChainOf(Calls(s.wire))
  }

  lemma SubmitMoves(c: S.Chain, p: S.Payload, staysPending: bool)
    requires S.Signed(p)
    ensures Bare(S.Submit(c, p, staysPending).0) == Bare(Moved(c, p.call))
  {
    hide S.Validate, S.Apply;
    ReceiptsAreLeft(c.(ledger := c.ledger + 1), p.call);
  }

  lemma ReceiptsAreLeft(c: S.Chain, call: S.Call)
    ensures S.Apply(c, call).pending == c.pending
  {}

  lemma MovedIsBare(c: S.Chain, call: S.Call)
    ensures Bare(Moved(c, call)) == Moved(Bare(c), call)
  {
    assert S.Validate(Bare(c), call) == S.Validate(c, call);
  }

  lemma OneMoreSent(s: Sys, t: Sys, sent: Sent, staysPending: bool)
    requires WireTells(s) && S.Signed(sent.payload)
    requires t.chain == S.Submit(s.chain, sent.payload, staysPending).0 && t.wire == s.wire + [sent]
    ensures WireTells(t)
  {
    hide Moved, S.Submit;
    SubmitMoves(s.chain, sent.payload, staysPending);
    MovedIsBare(s.chain, sent.payload.call);
    assert t.wire[..|s.wire|] == s.wire;
    var call := sent.payload.call;
    assert Calls(t.wire) == Calls(s.wire) + [call];
    assert Calls(t.wire)[..|Calls(s.wire)|] == Calls(s.wire);
  }

  lemma StepTells(s: Sys, a: Action)
    requires Inv(s) && WireTells(s)
    ensures WireTells(Step(s, a))
  {
    hide Inv, WireTells, Step, S.Submit, S.HexIds;
    StepChain(s, a);
    if sent, staysPending :| OneMore(s, Step(s, a), sent, staysPending) {
      OneMoreSent(s, Step(s, a), sent, staysPending);
    } else {
      SameTelling(s, Step(s, a));
    }
  }

  lemma SameTelling(s: Sys, t: Sys)
    requires WireTells(s) && t.chain == s.chain && t.wire == s.wire
    ensures WireTells(t)
  {}

  lemma {:induction false} RunTells(s: Sys, run: seq<Action>)
    requires Inv(s) && WireTells(s)
    ensures WireTells(Run(s, run))
    decreases |run|
  {
    hide Inv, WireTells, Step;
    if run != [] {
      StepTells(s, run[0]);
      StepKeeps(s, run[0]);
      RunTells(Step(s, run[0]), run[1..]);
    }
  }

  // ----- the contracts after the same calls -----

  function SimulatedAll(ops: seq<R.Op>): (r: seq<S.Call>)
    ensures |r| == |ops| && forall i :: 0 <= i < |ops| ==> r[i] == R.Simulated(ops[i])
  {
    if ops == [] then [] else SimulatedAll(ops[..|ops| - 1]) + [R.Simulated(ops[|ops| - 1])]
  }

  function ContractsAfter(k: R.Contracts, ops: seq<R.Op>): R.Contracts
    requires S.GENESIS + |ops| <= U32_MAX
  {
    if ops == [] then k
    else R.OnContracts(ContractsAfter(k, ops[..|ops| - 1]), S.GENESIS + |ops|, ops[|ops| - 1])
  }

  lemma {:induction false} ContractsMirror(k: R.Contracts, ops: seq<R.Op>, operators: set<Address>,
                                           issuers: set<Bytes32>)
    requires R.Mirrors(S.Genesis(), k) && R.Open(k, operators, issuers)
             && forall op :: op in ops ==> R.Within(op, operators, issuers)
    requires S.GENESIS + |ops| <= U32_MAX && k.credentials.nextToken == 1
    ensures var c, k' := ChainOf(SimulatedAll(ops)), ContractsAfter(k, ops);
            && R.Mirrors(c, k') && R.Open(k', operators, issuers)
            && c.ledger == S.GENESIS + |ops| && k'.credentials.nextToken <= 1 + |ops|
    decreases |ops|
  {
    hide R.Mirrors, R.Open, R.Within, R.OnContracts, R.Simulated, Moved, S.Submit, SimulatedAll;
    if ops == [] {
      assert SimulatedAll(ops) == [];
    } else {
      var before, op := ops[..|ops| - 1], ops[|ops| - 1];
      assert ops == before + [op];
      ContractsMirror(k, before, operators, issuers);
      var c, k' := ChainOf(SimulatedAll(before)), ContractsAfter(k, before);
      OneMoreMirrors(c, k', op, operators, issuers);
      OneMoreCall(before, op);
    }
  }

  lemma OneMoreMirrors(c: S.Chain, k: R.Contracts, op: R.Op, operators: set<Address>, issuers: set<Bytes32>)
    requires R.Mirrors(c, k) && R.Open(k, operators, issuers) && R.Within(op, operators, issuers)
    requires c.ledger < U32_MAX && k.credentials.nextToken < U64_MAX
    ensures var c', k' := Moved(c, R.Simulated(op)), R.OnContracts(k, c.ledger + 1, op);
            && R.Mirrors(c', k') && R.Open(k', operators, issuers) && c'.ledger == c.ledger + 1
            && k'.credentials.nextToken <= k.credentials.nextToken + 1
  {
    hide R.Mirrors, R.Open, R.Within, R.OnContracts, R.Simulated, Moved, S.Submit;
    R.CallMirrors(c, k, op, "", false, operators, issuers);
    R.CallCounts(c, k, op, "");
    Ledgers(c, R.Simulated(op));
    MirrorsMoved(c, op, R.OnContracts(k, c.ledger + 1, op));
  }

  lemma OneMoreCall(before: seq<R.Op>, op: R.Op)
    ensures ChainOf(SimulatedAll(before + [op])) == Moved(ChainOf(SimulatedAll(before)), R.Simulated(op))
  {
    hide R.Simulated, Moved;
    assert (before + [op])[..|before|] == before;
    assert SimulatedAll(before + [op]) == SimulatedAll(before) + [R.Simulated(op)];
    assert SimulatedAll(before + [op])[..|before|] == SimulatedAll(before);
  }

  lemma MirrorsMoved(c: S.Chain, op: R.Op, k: R.Contracts)
    requires R.Mirrors(S.Submit(c, S.Envelope(R.Simulated(op), Some("")), false).0, k)
    ensures R.Mirrors(Moved(c, R.Simulated(op)), k)
  {
    hide R.Mirrors, S.Submit, Moved, R.Simulated;
    var p := S.Envelope(R.Simulated(op), Some(""));
    SubmitMoves(c, p, false);
    var m, t := Moved(c, R.Simulated(op)), S.Submit(c, p, false).0;
    assert m == t.(pending := m.pending);
    R.ReceiptsDoNotMatter(t, m, k);
  }

  // ----- the result -----

  /** The registries hold what the operation was for, under the digests of its ids. */
  ghost predicate InRegistries(k: R.Contracts, d: Digest, op: Operation) {
    match op.fingerprint
    case RegisterEntity(_, _, id, meta, schema) =>
      var eid := d(HashDocument(ENTITY_SCHEMA, id));
      && eid in k.entities.heads && (eid, 1) in k.entities.versions
      && Hex(k.entities.versions[(eid, 1)].metadataHash) == meta && k.entities.versions[(eid, 1)].hashSchema == schema
    case IssueCredential(_, actor, id, issuer, subject, event, ctype, meta, schema) =>
      var cid := d(HashDocument(CREDENTIAL_SCHEMA, id));
      && cid in k.credentials.byId
      && var r := k.credentials.byId[cid];
      && r.credentialId == cid && r.issuerId == d(HashDocument(ENTITY_SCHEMA, issuer))
      && r.subjectId == d(HashDocument(ENTITY_SCHEMA, subject)) && r.eventId == d(HashDocument(ENTITY_SCHEMA, event))
      && r.credentialType == ctype && Hex(r.metadataHash) == meta && r.hashSchema == schema && r.issuedBy == actor
      && Some(r.issuedLedger as nat) == op.ledger
    case RevokeCredential(_, _, id, reason) =>
      var cid := d(HashDocument(CREDENTIAL_SCHEMA, id));
      && cid in k.credentials.byId
      && var r := k.credentials.byId[cid];
      && r.revoked && R.HexOption(r.revokedReasonHash) == reason && r.revokedLedger.Some?
      && Some(r.revokedLedger.value as nat) == op.ledger
  }

  /** The id an operation writes under was on the wire. */
  lemma SubjectOnTheWire(s: Sys, id: string, ids: set<string>)
    requires Inv(s) && id in s.ops && s.ops[id].phase == Confirmed && forall c :: c in Calls(s.wire) ==> IdsIn(ids, c)
    ensures s.ops[id].subjectKey in ids
  {
    hide LogOk, HashDocument, CanonicalKey, IsHex64, ExpectedFor;
    assert StoredOk(s, id);
    var op := s.ops[id];
    var i := op.ledger.value - S.GENESIS - 1;
    CallAt(s.wire, i);
  }

  lemma {:induction false} CallAt(wire: seq<Sent>, i: nat)
    requires i < |wire| && wire[i].payload.Envelope?
    ensures wire[i].payload.call in Calls(wire)
    decreases |wire|
  {
    if i < |wire| - 1 {
      CallAt(wire[..|wire| - 1], i);
    }
  }

  lemma FactCarries(chain: S.Chain, c: S.Chain, c': S.Chain, k: R.Contracts, d: Digest, ids: set<string>, op: Operation)
    requires S.EntitiesOk(chain) && OnChain(chain, op) && op.ledger.Some?
    requires op.subjectKey == SubjectKey(op.fingerprint) && op.subjectKey in ids
    requires c == Bare(chain) && As(c, c', d, ids) && R.Mirrors(c', k)
    ensures InRegistries(k, d, op)
  {
    hide Hex, HashDocument, IsHex64;
    var x := op.subjectKey;
    if op.fingerprint.RegisterEntity? {
      assert S.EntityOk(chain.entities[x], chain.entityVersions[x]);
      assert EntityAs(c, c', d, x);
      assert R.SameEntity(c', k.entities, d(x));
    } else {
      assert CredentialAs(c, c', d, x);
      assert R.SameCredential(c', k.credentials, d(x));
      var r := k.credentials.byId[d(x)];
      HexIsInjective(r.credentialId, d(x));
      if op.fingerprint.IssueCredential? {
        HexIsInjective(r.issuerId, d(HashDocument(ENTITY_SCHEMA, op.fingerprint.issuerId)));
        HexIsInjective(r.subjectId, d(HashDocument(ENTITY_SCHEMA, op.fingerprint.subjectId)));
        HexIsInjective(r.eventId, d(HashDocument(ENTITY_SCHEMA, op.fingerprint.eventId)));
      }
    }
  }

  lemma {:induction false} CallsOnHex(wire: seq<Sent>)
    requires forall sent :: sent in wire ==> sent.payload.Envelope? && S.HexIds(sent.payload.call)
    ensures forall c :: c in Calls(wire) ==> S.HexIds(c)
    decreases |wire|
  {
    hide S.HexIds;
    if wire != [] { CallsOnHex(wire[..|wire| - 1]); }
  }

  /**
   * In every run, a confirmed operation is in the registries after the calls of the run's submissions,
   * made by authorised and linked operators: its entity, or its credential with every issue field and
   * the operation's own ledger, or the revocation with its reason and ledger.
   */
  lemma ConfirmedIsInTheRegistries(maxAttempts: nat, feePayer: bool, run: seq<Action>, id: string, d: Digest,
                                   ops: seq<R.Op>, admin: Address, operators: set<Address>, issuers: set<Bytes32>,
                                   links: set<(Bytes32, Address)>)
    requires var s := Run(Init(maxAttempts, feePayer), run); id in s.ops && s.ops[id].phase == Confirmed
    requires var calls := Calls(Run(Init(maxAttempts, feePayer), run).wire);
             Tells(d, AllIds(calls)) && RenamedAll(d, calls) == SimulatedAll(ops)
    requires S.GENESIS + |ops| <= U32_MAX
    requires forall op :: op in ops ==> R.Within(op, operators, issuers)
    requires forall i, o :: i in issuers && o in operators ==> (i, o) in links
    ensures InRegistries(ContractsAfter(R.Staffed(admin, operators, links), ops), d,
                         Run(Init(maxAttempts, feePayer), run).ops[id])
  {
    hide Step, As, R.Mirrors, InRegistries, Tells, ContractsAfter, ChainOf, RenamedAll, SimulatedAll, IdsIn, R.Within,
         OnChain, AllIds, S.HexIds;
    var start := Init(maxAttempts, feePayer);
    var s := Run(start, run);
    var k, ids := R.Staffed(admin, operators, links), AllIds(Calls(s.wire));
    InitInv(maxAttempts, feePayer);
    RunKeeps(start, run);
    StartTellsNothing(maxAttempts, feePayer);
    RunTells(start, run);
    RunOnHex(start, run);
    CallsOnHex(s.wire);
    SubjectOnTheWire(s, id, ids);
    ConfirmedFact(s, id);
    ChainOfAs(Calls(s.wire), d, ids);
    GenesisMirrors(admin, operators, issuers, links);
    ContractsMirror(k, ops, operators, issuers);
    FactCarries(s.chain, Bare(s.chain), ChainOf(SimulatedAll(ops)), ContractsAfter(k, ops), d, ids, s.ops[id]);
  }

  lemma StartTellsNothing(maxAttempts: nat, feePayer: bool)
    ensures WireTells(Init(maxAttempts, feePayer))
  {}

  lemma GenesisMirrors(admin: Address, operators: set<Address>, issuers: set<Bytes32>, links: set<(Bytes32, Address)>)
    requires forall i, o :: i in issuers && o in operators ==> (i, o) in links
    ensures R.Mirrors(S.Genesis(), R.Staffed(admin, operators, links))
            && R.Open(R.Staffed(admin, operators, links), operators, issuers)
  {
    hide Hex, R.KeyText;
  }
}
