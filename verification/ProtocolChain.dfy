/** The chain and the wire over runs: an action submits one payload or leaves both alone. */
module ProtocolChain {
  import opened Common
  import opened Commands
  import opened Operations
  import opened Protocol
  import opened ProtocolInvariant
  import opened ProtocolSteps
  import opened ProtocolSafety
  import opened ProtocolOutcomes
  import opened ProtocolRecovery
  import S = SimulatedChain

  /** One more payload has reached the network. */
  ghost predicate OneMore(s: Sys, t: Sys, sent: Sent, staysPending: bool) {
    && S.Signed(sent.payload) && (sent.sender.None? ==> S.HexIds(sent.payload.call))
    && t.chain == S.Submit(s.chain, sent.payload, staysPending).0 && t.wire == s.wire + [sent]
  }

  ghost predicate ChainStep(s: Sys, t: Sys) {
    (t.chain == s.chain && t.wire == s.wire)
    || exists sent, staysPending :: OneMore(s, t, sent, staysPending)
  }

  /** Some other operation, to look at a step from. */
  lemma Aside(id: string) returns (other: string)
    ensures other != id
  {
    other := id + "*";
    assert |other| != |id|;
  }

  lemma AdvanceChain(s: Sys, id: string, staysPending: bool, nullLedger: bool)
    requires Inv(s) && id in s.calls
    ensures ChainStep(s, AdvanceCall(s, id, staysPending, nullLedger))
  {
    hide Inv, S.Submit, Save, AdvanceCall, S.HexIds;
    var other := Aside(id);
    var b, f := Basis(s, id, staysPending), s.calls[id].frame;
    OwnRecord(s, id);
    AdvanceFromBasis(s, id, staysPending, nullLedger, other);
    if Saving(f) {
      SaveElsewhere(s, f.op, other);
    } else if f.Submitting? && f.op.signed.Some? && S.Signed(f.op.signed.value.payload) {
      assert OneMore(s, b, Sent(Some(id), f.op.signed.value.payload), staysPending);
      assert OneMore(s, AdvanceCall(s, id, staysPending, nullLedger), Sent(Some(id), f.op.signed.value.payload),
                     staysPending);
    }
  }

  lemma FailChain(s: Sys, id: string, code: ErrorCode, reached: bool)
    requires id in s.calls
    ensures ChainStep(s, FailCall(s, id, code, reached))
  {
    hide S.Submit, ScheduleRetry, Throws, At, S.Signed, S.HexIds;
    var other := Aside(id);
    var c, t := s.calls[id], FailCall(s, id, code, reached);
    ThrowsElsewhere(s, id, c.caller, code, other);
    match c.frame
    case Submitting(op, _) =>
      var sends := reached && op.signed.Some? && S.Signed(op.signed.value.payload);
      var sent := if sends then Transmit(s, id, op.signed.value.payload, false) else s;
      AtElsewhere(sent, id, c.caller, SaveRetry(ScheduleRetry(op, s.now).(errorCode := Some(code))), other);
      if sends { assert OneMore(s, t, Sent(Some(id), op.signed.value.payload), false); }
    case SaveSubmitted(op, _) =>
      AtElsewhere(s, id, c.caller, SaveRetry(ScheduleRetry(op, s.now).(errorCode := Some(code))), other);
    case _ =>
  }

  lemma PrepareChain(s: Sys, a: Action)
    requires a.PrepareStart? || a.PrepareSimulate? || a.PrepareCreate? || a.PrepareAbandon?
    ensures ChainStep(s, StepPrepare(s, a))
  {
    hide LookUp, SpecFor, NewOperation, S.Validate;
  }

  lemma StartChain(s: Sys, a: Action)
    requires Starts(a)
    ensures ChainStep(s, StepStart(s, a))
  {
    hide StepStart;
    var other := Aside(a.operationId);
    StartElsewhere(s, a, other);
  }

  lemma StepChain(s: Sys, a: Action)
    requires Inv(s)
    ensures ChainStep(s, Step(s, a))
  {
    hide Inv, StepPrepare, StepStart, AdvanceCall, FailCall, S.Submit, S.HexIds;
    match a
    case Tick(_) =>
    case Advance(id, staysPending, nullLedger) =>
      if id in s.calls { AdvanceChain(s, id, staysPending, nullLedger); }
    case Fail(id, code, reached) => if id in s.calls { FailChain(s, id, code, reached); }
    case Crash(_) =>
    case Foreign(p, staysPending) =>
      if S.Signed(p) && S.HexIds(p.call) { assert OneMore(s, Step(s, a), Sent(None, p), staysPending); }
    case SubmitSigned(_, _, _, _) => StartChain(s, a);
    case Reconcile(_) => StartChain(s, a);
    case Claim(_, _) => StartChain(s, a);
    case WorkerProcess(_, _) => StartChain(s, a);
    case WorkerMisses(_, _, _) => StartChain(s, a);
    case WorkerForgets(_, _) => StartChain(s, a);
    case _ => PrepareChain(s, a);
  }

  // ----- the chain grows -----

  lemma {:induction false} RunExtends(s: Sys, run: seq<Action>)
    requires Inv(s)
    ensures S.Extends(s.chain, Run(s, run).chain)
    decreases |run|
  {
    hide Inv, Step, S.Extends, S.EntitiesOk, S.Submit;
    S.ExtendsItself(s.chain);
    if run != [] {
      var t := Step(s, run[0]);
      StepChain(s, run[0]);
      StepKeeps(s, run[0]);
      RunExtends(t, run[1..]);
      if sent, staysPending :| OneMore(s, t, sent, staysPending) {
        EntitiesAreOk(s);
        S.SubmitExtends(s.chain, sent.payload, staysPending);
        S.ExtendsIsTransitive(s.chain, t.chain, Run(s, run).chain);
      }
    }
  }

  // ----- what is filed on it -----

  /** A credential is filed under its business key, with the one schema and a type there are. */
  ghost predicate CredentialFiled(chain: S.Chain, id: string)
    requires id in chain.credentials
  {
    var r := chain.credentials[id];
    var key := S.BusinessKey(r.issuerId, r.subjectId, r.eventId, r.credentialType);
    && r.hashSchema == 1 && 1 <= r.credentialType <= 6
    && key in chain.businessKeys && chain.businessKeys[key] == id
  }

  ghost predicate Filed(chain: S.Chain) {
    && (forall id :: id in chain.entities ==> chain.entities[id].hashSchema == 1)
    && (forall id :: id in chain.credentials ==> CredentialFiled(chain, id))
    && (forall key :: key in chain.businessKeys ==> chain.businessKeys[key] in chain.credentials)
  }

  lemma SameFiling(a: S.Chain, b: S.Chain)
    requires Filed(a) && b.entities == a.entities && b.credentials == a.credentials && b.businessKeys == a.businessKeys
    ensures Filed(b)
  {
    hide S.BusinessKey;
    forall id | id in b.credentials ensures CredentialFiled(b, id) { assert CredentialFiled(a, id); }
  }

  lemma IssueFiles(s: S.Chain, c: S.Call)
    requires Filed(s) && c.IssueCredential? && S.Validate(s, c).None?
    ensures Filed(S.Apply(s, c))
  {
    hide S.BusinessKey;
    var t := S.Apply(s, c);
    forall id | id in t.credentials ensures CredentialFiled(t, id) {
      if id in s.credentials { assert CredentialFiled(s, id); }
    }
  }

  lemma RevokeFiles(s: S.Chain, c: S.Call)
    requires Filed(s) && c.RevokeCredential? && S.Validate(s, c).None?
    ensures Filed(S.Apply(s, c))
  {
    hide S.BusinessKey;
    var t := S.Apply(s, c);
    forall id | id in t.credentials ensures CredentialFiled(t, id) { assert CredentialFiled(s, id); }
  }

  lemma RegisterFiles(s: S.Chain, c: S.Call)
    requires Filed(s) && c.RegisterEntity? && S.Validate(s, c).None?
    ensures Filed(S.Apply(s, c))
  {
    hide S.BusinessKey;
    var t := S.Apply(s, c);
    forall id | id in t.credentials ensures CredentialFiled(t, id) { assert CredentialFiled(s, id); }
  }

  lemma SubmitFiles(chain: S.Chain, p: S.Payload, staysPending: bool)
    requires Filed(chain) && S.Signed(p)
    ensures Filed(S.Submit(chain, p, staysPending).0)
  {
    hide Filed, S.Apply, S.Validate;
    var next := chain.(ledger := chain.ledger + 1);
    SameFiling(chain, next);
    if S.Validate(chain, p.call).None? {
      ValidatesAlike(chain, next, p.call);
      match p.call {
        case RegisterEntity(_, _, _, _) => RegisterFiles(next, p.call);
        case IssueCredential(_, _, _, _, _, _, _, _) => IssueFiles(next, p.call);
        case RevokeCredential(_, _, _) => RevokeFiles(next, p.call);
      }
      SameFiling(S.Apply(next, p.call), S.Submit(chain, p, staysPending).0);
    } else {
      SameFiling(chain, S.Submit(chain, p, staysPending).0);
    }
  }

  lemma ValidatesAlike(a: S.Chain, b: S.Chain, c: S.Call)
    requires b == a.(ledger := b.ledger)
    ensures S.Validate(b, c) == S.Validate(a, c)
  {}

  lemma {:induction false} RunFiles(s: Sys, run: seq<Action>)
    requires Inv(s) && Filed(s.chain)
    ensures Filed(Run(s, run).chain)
    decreases |run|
  {
    hide Inv, Step, Filed, S.Submit;
    if run != [] {
      var t := Step(s, run[0]);
      StepChain(s, run[0]);
      StepKeeps(s, run[0]);
      if sent, staysPending :| OneMore(s, t, sent, staysPending) { SubmitFiles(s.chain, sent.payload, staysPending); }
      RunFiles(t, run[1..]);
    }
  }

  // ----- ids on the wire -----

  /** Everything the network has seen names its ids by hex text. */
  ghost predicate WireOnHex(s: Sys) {
    forall sent :: sent in s.wire ==> sent.payload.Envelope? && S.HexIds(sent.payload.call)
  }

  /** A command's call names its ids by their digests. */
  lemma SpecOnHex(c: Command)
    requires SpecFor(c).Ok?
    ensures S.HexIds(SpecFor(c).value)
  {
    hide IsHex64, HashDocument;
  }

  lemma SentOnHex(s: Sys, sent: Sent)
    requires Inv(s) && sent in s.wire && sent.sender.Some?
    ensures sent.payload.Envelope? && S.HexIds(sent.payload.call)
  {
    hide LogOk, SpecFor, S.HexIds, PhaseOk, ConfirmedOk, CanonicalKey, SubjectKey, ExpectedFor;
    assert SentOk(s, sent);
    var op := s.ops[sent.sender.value];
    assert StoredOk(s, sent.sender.value);
    SpecOnHex(op.fingerprint);
  }

  lemma {:induction false} RunOnHex(s: Sys, run: seq<Action>)
    requires Inv(s) && WireOnHex(s)
    ensures WireOnHex(Run(s, run))
    decreases |run|
  {
    hide Inv, Step, S.Submit, S.HexIds;
    if run != [] {
      var t := Step(s, run[0]);
      StepChain(s, run[0]);
      StepKeeps(s, run[0]);
      if sent, staysPending :| OneMore(s, t, sent, staysPending) {
        if sent.sender.Some? { SentOnHex(t, sent); }
      }
      RunOnHex(t, run[1..]);
    }
  }
}
