/** Which signed operations can still confirm, over all runs. */
module ProtocolProspects {
  import opened Common
  import opened Commands
  import opened Operations
  import opened Protocol
  import opened ProtocolInvariant
  import opened ProtocolSteps
  import opened ProtocolSafety
  import opened ProtocolOutcomes
  import opened ProtocolRecovery
  import opened ProtocolChain
  import S = SimulatedChain

  // ----- a refused call that stays refused -----

  /** The call is refused now, and not just because the credential to revoke is not there yet. */
  predicate RefusedForGood(chain: S.Chain, c: S.Call) {
    S.Validate(chain, c).Some? && (c.RevokeCredential? ==> c.credentialId in chain.credentials)
  }

  lemma RegisterIsLost(chain: S.Chain, later: S.Chain, c: Command, op: Operation)
    requires c.RegisterEntity? && SpecFor(c).Ok? && op.fingerprint == c
    requires RefusedForGood(chain, SpecFor(c).value) && S.Extends(chain, later) && S.EntitiesOk(later) && Filed(later)
    ensures !OnChain(later, op)
  {
    hide HashDocument, IsHex64, CredentialFiled;
    var id := SubjectKey(c);
    if id in later.entities { assert S.EntityOk(later.entities[id], later.entityVersions[id]); }
  }

  lemma IssueIsLost(chain: S.Chain, later: S.Chain, c: Command, op: Operation)
    requires c.IssueCredential? && SpecFor(c).Ok? && op.fingerprint == c
    requires RefusedForGood(chain, SpecFor(c).value) && S.Extends(chain, later) && Filed(chain) && Filed(later)
    ensures !OnChain(later, op)
  {
    hide HashDocument, IsHex64, S.BusinessKey, S.EntitiesOk;
    var id := SubjectKey(c);
    if id in later.credentials { assert CredentialFiled(later, id); }
  }

  lemma RevokeIsLost(chain: S.Chain, later: S.Chain, c: Command, op: Operation)
    requires c.RevokeCredential? && SpecFor(c).Ok? && op.fingerprint == c
    requires RefusedForGood(chain, SpecFor(c).value) && S.Extends(chain, later)
    ensures !OnChain(later, op)
  {
    hide HashDocument, IsHex64, S.BusinessKey, S.EntitiesOk;
  }

  lemma CallOfCommand(op: Operation)
    requires IntentOk(op) && op.signed.Some?
    ensures SpecFor(op.fingerprint).Ok? && S.Signed(op.signed.value.payload)
            && op.signed.value.payload.call == SpecFor(op.fingerprint).value
            && op.subjectKey == SubjectKey(op.fingerprint)
  {
    hide SpecFor, SubjectKey, CanonicalKey, ExpectedFor;
  }

  lemma RefusedNeverConfirms(s: Sys, later: seq<Action>, id: string)
    requires Inv(s) && Filed(s.chain) && id in s.ops && s.ops[id].signed.Some?
    requires s.ops[id].signed.value.payload.Envelope?
             && RefusedForGood(s.chain, s.ops[id].signed.value.payload.call)
    ensures !ConfirmsIn(s, later, id)
  {
    hide Inv, Filed, RefusedForGood, OnChain, S.Extends, S.EntitiesOk, IntentOk, PhaseOk, ConfirmedOk, RestOk, Run,
         SpecFor;
    var t, op := Run(s, later), s.ops[id];
    EnterIdle(s, id);
    CallOfCommand(op);
    RunKeeps(s, later);
    RunFiles(s, later);
    RunExtends(s, later);
    IntentRemains(s, later, id);
    if t.ops[id].phase == Confirmed {
      ConfirmedFact(t, id);
      match op.fingerprint
      case RegisterEntity(_, _, _, _, _) => RegisterIsLost(s.chain, t.chain, op.fingerprint, t.ops[id]);
      case IssueCredential(_, _, _, _, _, _, _, _, _) => IssueIsLost(s.chain, t.chain, op.fingerprint, t.ops[id]);
      case RevokeCredential(_, _, _, _) => RevokeIsLost(s.chain, t.chain, op.fingerprint, t.ops[id]);
    }
  }

  // ----- a revocation that waits for its credential -----

  /** An upper bound on the lengths of some texts. */
  lemma {:induction false} LongerThanAll(keys: set<string>) returns (n: nat)
    ensures forall k :: k in keys ==> |k| <= n
    decreases |keys|
  {
    if keys == {} {
      n := 0;
    } else {
      var k :| k in keys;
      n := LongerThanAll(keys - {k});
      if n < |k| { n := |k|; }
    }
  }

  /** Anyone's issue of the credential, for an issuer long enough to make the business key a new one. */
  function IssueOf(id: string, n: nat): S.Payload {
    S.Envelope(S.IssueCredential("", id, seq(n + 1, _ => 'a'), "", "", 1, "", 1), Some(""))
  }

  lemma IssueOfIsNew(chain: S.Chain, id: string, n: nat)
    requires id !in chain.credentials && forall k :: k in chain.businessKeys ==> |k| <= n
    ensures var p, after := IssueOf(id, n), S.Submit(chain, IssueOf(id, n), false).0;
            && S.Signed(p) && (IsHex(id) ==> S.HexIds(p.call))
            && id in after.credentials && !after.credentials[id].revoked
  {
    var p := IssueOf(id, n);
    assert |S.CallKey(p.call)| > n;
  }

  lemma SubjectIsHex(c: Command)
    ensures IsHex(SubjectKey(c))
  {
    hide IsHex;
  }

  /** Someone issues the credential; then the recovery of the revocation confirms it. */
  lemma WaitingRevocationCanConfirm(s: Sys, id: string) returns (later: seq<Action>)
    requires Inv(s) && id in s.ops && id !in s.calls && s.ops[id].phase == Signed
    requires s.ops[id].fingerprint.RevokeCredential? && SubjectKey(s.ops[id].fingerprint) !in s.chain.credentials
    ensures ConfirmsIn(s, later, id)
  {
    hide Inv, Run, LogOk, Recovery, RestOk, IntentOk, ConfirmedOk, S.Submit, S.Validate, StillToDo, SpecFor, SubjectKey,
         IssueOf, S.HexIds, IsHex;
    var op := s.ops[id];
    EnterIdle(s, id);
    SignedAndStored(op);
    CallOfCommand(op);
    var subject := SubjectKey(op.fingerprint);
    var n := LongerThanAll(s.chain.businessKeys.Keys);
    IssueOfIsNew(s.chain, subject, n);
    SubjectIsHex(op.fingerprint);
    var issue := Foreign(IssueOf(subject, n), false);
    var t := Step(s, issue);
    IssuedByAnyone(s, IssueOf(subject, n));
    StepKeeps(s, issue);
    RevocationIsDue(t.chain, op.fingerprint);
    RecoveryRuns(t, id);
    later := [issue] + Recovery(id, op.signed.value);
    RunOne(s, issue, Recovery(id, op.signed.value));
  }

  lemma SignedAndStored(op: Operation)
    requires op.phase == Signed && PhaseOk(op)
    ensures op.signed.Some?
  {}

  lemma IssuedByAnyone(s: Sys, p: S.Payload)
    requires S.Signed(p) && S.HexIds(p.call)
    ensures var t := Step(s, Foreign(p, false));
            t.chain == S.Submit(s.chain, p, false).0 && t.ops == s.ops && t.calls == s.calls
  {
    hide S.Submit;
  }

  lemma RevocationIsDue(chain: S.Chain, c: Command)
    requires c.RevokeCredential? && SpecFor(c).Ok? && SubjectKey(c) in chain.credentials
             && !chain.credentials[SubjectKey(c)].revoked
    ensures S.Validate(chain, SpecFor(c).value).None? && StillToDo(chain, c)
  {
    hide HashDocument, IsHex64;
  }

  // ----- the condition -----

  /** The chain accepts the call and its effect is still to come, or it revokes a credential that may yet be issued. */
  predicate CanConfirm(chain: S.Chain, op: Operation)
    requires op.signed.Some? && op.signed.value.payload.Envelope?
  {
    || (S.Validate(chain, op.signed.value.payload.call).None? && StillToDo(chain, op.fingerprint))
    || (op.fingerprint.RevokeCredential? && SubjectKey(op.fingerprint) !in chain.credentials)
  }

  lemma RecoveryConfirms(s: Sys, id: string)
    requires Inv(s) && id in s.ops && id !in s.calls && s.ops[id].phase == Signed
    requires s.ops[id].signed.Some? && s.ops[id].signed.value.payload.Envelope?
             && S.Validate(s.chain, s.ops[id].signed.value.payload.call).None?
             && StillToDo(s.chain, s.ops[id].fingerprint)
    ensures ConfirmsIn(s, Recovery(id, s.ops[id].signed.value), id)
  {
    hide Inv, Run, S.Validate, StillToDo, Recovery;
    RecoveryRuns(s, id);
  }

  lemma NeverConfirming(s: Sys, later: seq<Action>, id: string)
    requires Inv(s) && id in s.ops && id !in s.calls && s.ops[id].phase == Signed
    requires EffectLedger(s.chain, s.ops[id]).Some?
    ensures !ConfirmsIn(s, later, id)
  {
    hide Inv, Run, EffectLedger, RestOk, IntentOk, ConfirmedOk;
    EnterIdle(s, id);
    EffectFirstNeverConfirms(s, later, id);
  }

  lemma CallNamesTheSubject(chain: S.Chain, c: Command)
    requires SpecFor(c).Ok?
    ensures c.RevokeCredential? && S.Validate(chain, SpecFor(c).value).None? ==> SubjectKey(c) in chain.credentials
    ensures SpecFor(c).value.RevokeCredential? == c.RevokeCredential?
    ensures c.RevokeCredential? ==> SpecFor(c).value.credentialId == SubjectKey(c)
  {
    hide HashDocument, IsHex64;
  }

  lemma CanConfirmOrNever(s: Sys, id: string)
    requires Inv(s) && Filed(s.chain) && id in s.ops && id !in s.calls && s.ops[id].phase == Signed
    ensures s.ops[id].signed.Some? && s.ops[id].signed.value.payload.Envelope?
    ensures (exists later :: ConfirmsIn(s, later, id)) <==> CanConfirm(s.chain, s.ops[id])
  {
    hide Inv, Filed, Run, LogOk, S.Validate, StillToDo, EffectLedger, Recovery, RestOk, IntentOk, ConfirmedOk,
         ConfirmsIn, SpecFor, SubjectKey;
    RecoveryRuns(s, id);
    var op := s.ops[id];
    EnterIdle(s, id);
    CallOfCommand(op);
    LogOf(s);
    var call := op.signed.value.payload.call;
    CallNamesTheSubject(s.chain, op.fingerprint);
    if S.Validate(s.chain, call).None? {
      EffectOrToDo(s.chain, s.wire, op);
      if StillToDo(s.chain, op.fingerprint) {
        RecoveryConfirms(s, id);
      } else {
        forall later ensures !ConfirmsIn(s, later, id) { NeverConfirming(s, later, id); }
      }
    } else if CanConfirm(s.chain, op) {
      var later := WaitingRevocationCanConfirm(s, id);
    } else {
      forall later ensures !ConfirmsIn(s, later, id) { RefusedNeverConfirms(s, later, id); }
    }
  }

  /**
   * In every reachable state, an idle signed operation can still confirm, in some run, exactly when the
   * chain accepts its call and does not have its effect yet, or it revokes a credential that is not on
   * the chain, which anyone may still issue.
   */
  lemma SignedCanConfirmExactlyWhen(maxAttempts: nat, feePayer: bool, run: seq<Action>, id: string)
    requires var s := Run(Init(maxAttempts, feePayer), run);
             id in s.ops && id !in s.calls && s.ops[id].phase == Signed
    ensures var s := Run(Init(maxAttempts, feePayer), run);
            && s.ops[id].signed.Some? && s.ops[id].signed.value.payload.Envelope?
            && ((exists later :: ConfirmsIn(s, later, id)) <==> CanConfirm(s.chain, s.ops[id]))
  {
    hide Run, CanConfirm, Filed, ConfirmsIn;
    var start := Init(maxAttempts, feePayer);
    InitInv(maxAttempts, feePayer);
    RunKeeps(start, run);
    assert Filed(start.chain) by { NothingFiled(); }
    RunFiles(start, run);
    CanConfirmOrNever(Run(start, run), id);
  }

  lemma NothingFiled()
    ensures Filed(S.Genesis())
  {}
}
