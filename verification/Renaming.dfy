/**
 * The simulated chain under a change of ids: replacing every id by the hex form of its digest commutes
 * with every submission, as long as the digest tells the ids in play apart.
 */
module Renaming {
  import opened Common
  import S = SimulatedChain
  import R = ChainRefinement

  type Digest = string -> Bytes32

  function Name(d: Digest, id: string): string {
    Hex(d(id))
  }

  function Renamed(d: Digest, c: S.Call): S.Call {
    match c
    case RegisterEntity(o, id, meta, schema) => S.RegisterEntity(o, Name(d, id), meta, schema)
    case IssueCredential(o, id, i, s, e, t, meta, schema) =>
      S.IssueCredential(o, Name(d, id), Name(d, i), Name(d, s), Name(d, e), t, meta, schema)
    case RevokeCredential(o, id, reason) => S.RevokeCredential(o, Name(d, id), reason)
  }

  /** A submission, less its receipt. */
  function Moved(c: S.Chain, call: S.Call): S.Chain {
    var next := c.(ledger := c.ledger + 1);
    if S.Validate(c, call).None? then S.Apply(next, call) else next
  }

  predicate IdsIn(ids: set<string>, c: S.Call) {
    match c
    case RegisterEntity(_, id, _, _) => id in ids
    case IssueCredential(_, id, i, s, e, _, _, _) => id in ids && i in ids && s in ids && e in ids
    case RevokeCredential(_, id, _) => id in ids
  }

  /** The ids of a series of calls. */
  function IdsOf(c: S.Call): (ids: set<string>)
    ensures IdsIn(ids, c) && (S.HexIds(c) ==> OnHex(ids))
  {
    match c
    case RegisterEntity(_, id, _, _) => {id}
    case IssueCredential(_, id, i, s, e, _, _, _) => {id, i, s, e}
    case RevokeCredential(_, id, _) => {id}
  }

  function AllIds(calls: seq<S.Call>): (ids: set<string>)
    ensures forall c :: c in calls ==> IdsIn(ids, c)
    ensures (forall c :: c in calls ==> S.HexIds(c)) ==> OnHex(ids)
  {
    if calls == [] then {}
    else
      assert calls == calls[..|calls| - 1] + [calls[|calls| - 1]];
      AllIds(calls[..|calls| - 1]) + IdsOf(calls[|calls| - 1])
  }

  /** The ids are texts of hex digits, so none contains the separator of the chain's business keys. */
  ghost predicate OnHex(ids: set<string>) {
    forall x :: x in ids ==> IsHex(x)
  }

  /** The digest tells the ids apart. */
  ghost predicate Tells(d: Digest, ids: set<string>) {
    forall x, y :: x in ids && y in ids && d(x) == d(y) ==> x == y
  }

  // ----- one chain as the other, point by point -----

  ghost predicate EntityAs(c: S.Chain, c': S.Chain, d: Digest, x: string) {
    && (x in c.entities <==> Name(d, x) in c'.entities)
    && (x in c.entities ==>
          var a, b := c.entities[x], c'.entities[Name(d, x)];
          b.metadataHash == a.metadataHash && b.hashSchema == a.hashSchema)
  }

  function RenamedCredential(d: Digest, r: S.Credential): S.Credential {
    r.(credentialId := Name(d, r.credentialId), issuerId := Name(d, r.issuerId), subjectId := Name(d, r.subjectId),
       eventId := Name(d, r.eventId))
  }

  ghost predicate CredentialAs(c: S.Chain, c': S.Chain, d: Digest, x: string) {
    && (x in c.credentials <==> Name(d, x) in c'.credentials)
    && (x in c.credentials ==> c'.credentials[Name(d, x)] == RenamedCredential(d, c.credentials[x]))
  }

  function NamedKey(d: Digest, i: string, s: string, e: string, t: nat): string {
    S.BusinessKey(Name(d, i), Name(d, s), Name(d, e), t)
  }

  ghost predicate KeyAs(c: S.Chain, c': S.Chain, d: Digest, i: string, s: string, e: string, t: nat) {
    S.BusinessKey(i, s, e, t) in c.businessKeys <==> NamedKey(d, i, s, e, t) in c'.businessKeys
  }

  ghost predicate As(c: S.Chain, c': S.Chain, d: Digest, ids: set<string>) {
    && c'.ledger == c.ledger && c'.tokenCounter == c.tokenCounter
    && (forall x :: x in ids ==> EntityAs(c, c', d, x))
    && (forall x :: x in ids ==> CredentialAs(c, c', d, x))
    && (forall i, s, e, t: nat :: i in ids && s in ids && e in ids && 1 <= t <= 6 ==> KeyAs(c, c', d, i, s, e, t))
  }

  // ----- names and keys -----

  lemma NamesDiffer(d: Digest, ids: set<string>, x: string, y: string)
    requires Tells(d, ids) && x in ids && y in ids
    ensures Name(d, x) == Name(d, y) <==> x == y
  {
    hide Hex;
    HexIsInjective(d(x), d(y));
  }

  lemma KeysDiffer(i: string, s: string, e: string, t: nat, i': string, s': string, e': string, t': nat)
    requires '|' !in i && '|' !in s && '|' !in e && '|' !in i' && '|' !in s' && '|' !in e' && 1 <= t <= 6
             && 1 <= t' <= 6
    ensures S.BusinessKey(i, s, e, t) == S.BusinessKey(i', s', e', t') <==> (i, s, e, t) == (i', s', e', t')
  {
    hide Decimal;
    if S.BusinessKey(i, s, e, t) == S.BusinessKey(i', s', e', t') {
      var third, third' := e + ['|'] + Decimal(t), e' + ['|'] + Decimal(t');
      var second, second' := s + ['|'] + third, s' + ['|'] + third';
      assert S.BusinessKey(i, s, e, t) == i + ['|'] + second;
      assert S.BusinessKey(i', s', e', t') == i' + ['|'] + second';
      SplitAtSeparator(i, second, '|', i', second');
      SplitAtSeparator(s, third, '|', s', third');
      SplitAtSeparator(e, Decimal(t), '|', e', Decimal(t'));
      DigitsDiffer(t, t');
    }
  }

  lemma DigitsDiffer(t: nat, t': nat)
    requires 1 <= t <= 6 && 1 <= t' <= 6 && Decimal(t) == Decimal(t')
    ensures t == t'
  {
    assert Decimal(t)[0] == "0123456789"[t] && Decimal(t')[0] == "0123456789"[t'];
  }

  lemma NamedKeysDiffer(d: Digest, ids: set<string>, i: string, s: string, e: string, t: nat, i': string, s': string,
                        e': string, t': nat)
    requires Tells(d, ids) && {i, s, e, i', s', e'} <= ids && 1 <= t <= 6 && 1 <= t' <= 6
    ensures NamedKey(d, i, s, e, t) == NamedKey(d, i', s', e', t') <==> (i, s, e, t) == (i', s', e', t')
  {
    hide Hex, S.BusinessKey;
    R.KeyTextIsInjective(d(i), d(s), d(e), t, d(i'), d(s'), d(e'), t');
  }

  // ----- one submission -----

  lemma ValidateAs(c: S.Chain, c': S.Chain, call: S.Call, d: Digest, ids: set<string>)
    requires As(c, c', d, ids) && IdsIn(ids, call)
    ensures S.Validate(c, call) == S.Validate(c', Renamed(d, call))
  {
    hide Name, S.BusinessKey;
    match call
    case RegisterEntity(_, id, _, _) => assert EntityAs(c, c', d, id);
    case IssueCredential(_, id, i, s, e, t, _, _) =>
      assert CredentialAs(c, c', d, id);
      assert 1 <= t <= 6 ==> KeyAs(c, c', d, i, s, e, t);
    case RevokeCredential(_, id, _) => assert CredentialAs(c, c', d, id);
  }

  /** Both sides answer the call alike. */
  predicate AnswersAs(c: S.Chain, c': S.Chain, call: S.Call, d: Digest) {
    S.Validate(c, call) == S.Validate(c', Renamed(d, call))
  }

  lemma MovedEntities(c: S.Chain, call: S.Call)
    ensures Moved(c, call).entities
            == if S.Validate(c, call).None? && call.RegisterEntity? && call.entityId !in c.entities
               then c.entities[call.entityId :=
                      S.EntityHead(call.entityId, 1, true, call.metadataHash, call.hashSchema, c.ledger + 1)]
               else c.entities
  {
    hide S.Validate;
  }

  /** The credential that an accepted issue writes. */
  function Written(c: S.Chain, call: S.Call): S.Credential
    requires call.IssueCredential?
  {
    S.Credential(call.credentialId, c.tokenCounter + 1, call.issuerId, call.subjectId, call.eventId,
                 call.credentialType, call.metadataHash, call.hashSchema, false, None, None, c.ledger + 1,
                 call.operator)
  }

  lemma MovedCredentials(c: S.Chain, call: S.Call)
    ensures Moved(c, call).credentials
            == if S.Validate(c, call).Some? || call.RegisterEntity? then c.credentials
               else if call.IssueCredential? then
                 if call.credentialId in c.credentials then c.credentials
                 else c.credentials[call.credentialId := Written(c, call)]
               else if call.credentialId !in c.credentials || c.credentials[call.credentialId].revoked
                 then c.credentials
               else
                 c.credentials[call.credentialId := c.credentials[call.credentialId].(
                   revoked := true, revokedReasonHash := call.reasonHash, revokedLedger := Some(c.ledger + 1))]
  {
    hide S.Validate;
  }

  lemma MovedEntityAs(c: S.Chain, c': S.Chain, call: S.Call, d: Digest, x: string)
    requires EntityAs(c, c', d, x) && AnswersAs(c, c', call, d)
    requires call.RegisterEntity? ==> (Name(d, x) == Name(d, call.entityId) <==> x == call.entityId)
    ensures EntityAs(Moved(c, call), Moved(c', Renamed(d, call)), d, x)
  {
    hide Name, S.BusinessKey, S.Validate, Moved;
    MovedEntities(c, call);
    MovedEntities(c', Renamed(d, call));
  }

  lemma MovedCredentialAs(c: S.Chain, c': S.Chain, call: S.Call, d: Digest, x: string)
    requires CredentialAs(c, c', d, x) && AnswersAs(c, c', call, d) && c'.ledger == c.ledger
             && c'.tokenCounter == c.tokenCounter
    requires !call.RegisterEntity? ==> (Name(d, x) == Name(d, call.credentialId) <==> x == call.credentialId)
    ensures CredentialAs(Moved(c, call), Moved(c', Renamed(d, call)), d, x)
  {
    hide Name, S.BusinessKey, S.Validate, Moved;
    MovedCredentials(c, call);
    MovedCredentials(c', Renamed(d, call));
  }

  lemma MovedTokensAs(c: S.Chain, c': S.Chain, call: S.Call, d: Digest)
    requires AnswersAs(c, c', call, d) && c'.tokenCounter == c.tokenCounter
    requires call.IssueCredential? ==> CredentialAs(c, c', d, call.credentialId)
    ensures Moved(c', Renamed(d, call)).tokenCounter == Moved(c, call).tokenCounter
  {
    hide Name, S.BusinessKey, S.Validate;
  }

  lemma MovedKeyAs(c: S.Chain, c': S.Chain, call: S.Call, d: Digest, i: string, s: string, e: string, t: nat)
    requires KeyAs(c, c', d, i, s, e, t) && AnswersAs(c, c', call, d)
    requires call.IssueCredential? ==> CredentialAs(c, c', d, call.credentialId)
    requires call.IssueCredential? && S.Validate(c, call).None? ==>
               (S.BusinessKey(i, s, e, t) == S.CallKey(call)
                <==> NamedKey(d, i, s, e, t) == S.CallKey(Renamed(d, call)))
    ensures KeyAs(Moved(c, call), Moved(c', Renamed(d, call)), d, i, s, e, t)
  {
    hide Name, S.BusinessKey, NamedKey, S.Validate, S.CallKey;
  }

  lemma CallKeysDiffer(call: S.Call, d: Digest, ids: set<string>, i: string, s: string, e: string, t: nat)
    requires call.IssueCredential? && IdsIn(ids, call) && Tells(d, ids) && OnHex(ids) && 1 <= call.credentialType <= 6
    requires i in ids && s in ids && e in ids && 1 <= t <= 6
    ensures S.BusinessKey(i, s, e, t) == S.CallKey(call) <==> NamedKey(d, i, s, e, t) == S.CallKey(Renamed(d, call))
  {
    hide Name, S.BusinessKey, NamedKey;
    assert forall x :: x in {i, s, e, call.issuerId, call.subjectId, call.eventId} ==> '|' !in x;
    KeysDiffer(i, s, e, t, call.issuerId, call.subjectId, call.eventId, call.credentialType);
    NamedKeysDiffer(d, ids, i, s, e, t, call.issuerId, call.subjectId, call.eventId, call.credentialType);
    RenamedKey(d, call);
  }

  lemma RenamedKey(d: Digest, call: S.Call)
    requires call.IssueCredential?
    ensures S.CallKey(Renamed(d, call)) == NamedKey(d, call.issuerId, call.subjectId, call.eventId, call.credentialType)
  {}

  lemma AcceptedType(c: S.Chain, call: S.Call)
    requires call.IssueCredential? && S.Validate(c, call).None?
    ensures 1 <= call.credentialType <= 6
  {}

  /** Renaming commutes with a submission, accepted or refused. */
  lemma MovedAs(c: S.Chain, c': S.Chain, call: S.Call, d: Digest, ids: set<string>)
    requires As(c, c', d, ids) && IdsIn(ids, call) && Tells(d, ids) && OnHex(ids)
    ensures As(Moved(c, call), Moved(c', Renamed(d, call)), d, ids)
  {
    hide Name, EntityAs, CredentialAs, KeyAs, Renamed, Moved, Tells, OnHex, S.Validate, S.BusinessKey, NamedKey,
         S.CallKey;
    var m, m' := Moved(c, call), Moved(c', Renamed(d, call));
    Ledgers(c, call);
    Ledgers(c', Renamed(d, call));
    ValidateAs(c, c', call, d, ids);
    forall x | x in ids ensures EntityAs(m, m', d, x) {
      if call.RegisterEntity? { NamesDiffer(d, ids, x, call.entityId); }
      MovedEntityAs(c, c', call, d, x);
    }
    forall x | x in ids ensures CredentialAs(m, m', d, x) {
      if !call.RegisterEntity? { NamesDiffer(d, ids, x, call.credentialId); }
      MovedCredentialAs(c, c', call, d, x);
    }
    forall i, s, e, t: nat | i in ids && s in ids && e in ids && 1 <= t <= 6 ensures KeyAs(m, m', d, i, s, e, t) {
      if call.IssueCredential? && S.Validate(c, call).None? {
        AcceptedType(c, call);
        CallKeysDiffer(call, d, ids, i, s, e, t);
      }
      assert KeyAs(c, c', d, i, s, e, t);
      MovedKeyAs(c, c', call, d, i, s, e, t);
    }
    MovedTokensAs(c, c', call, d);
  }

  lemma Ledgers(c: S.Chain, call: S.Call)
    ensures Moved(c, call).ledger == c.ledger + 1
  {
    hide S.Validate;
  }

  // ----- a series of submissions -----

  /** The chain after a series of calls from genesis, less the receipts. */
  function ChainOf(calls: seq<S.Call>): S.Chain {
    if calls == [] then S.Genesis() else Moved(ChainOf(calls[..|calls| - 1]), calls[|calls| - 1])
  }

  function RenamedAll(d: Digest, calls: seq<S.Call>): (r: seq<S.Call>)
    ensures |r| == |calls| && forall i :: 0 <= i < |calls| ==> r[i] == Renamed(d, calls[i])
  {
    if calls == [] then [] else RenamedAll(d, calls[..|calls| - 1]) + [Renamed(d, calls[|calls| - 1])]
  }

  /** The renamed series from genesis yields the renamed chain. */
  lemma {:induction false} ChainOfAs(calls: seq<S.Call>, d: Digest, ids: set<string>)
    requires Tells(d, ids) && OnHex(ids) && forall c :: c in calls ==> IdsIn(ids, c)
    ensures As(ChainOf(calls), ChainOf(RenamedAll(d, calls)), d, ids)
    decreases |calls|
  {
    hide Tells, OnHex, IdsIn, Name, Renamed, Moved;
    if calls == [] {
    } else {
      var before, last := calls[..|calls| - 1], calls[|calls| - 1];
      assert calls == before + [last];
      ChainOfAs(before, d, ids);
      MovedAs(ChainOf(before), ChainOf(RenamedAll(d, before)), last, d, ids);
      assert RenamedAll(d, calls)[..|before|] == RenamedAll(d, before);
    }
  }
}
