/**
 * CulturalEntityRegistry: append-only, optimistically versioned hashes of cultural entities.
 *
 * `Registry` is the contract's storage with its published events, `Exec` one call by value, and
 * `Contract` the object whose methods set heads and versions.
 */
module EntityRegistry {
  import opened Common
  import opened Grants

  datatype Version = Version(metadataHash: Bytes32, hashSchema: U32, version: U32, registrar: Address,
                             recordedLedger: U32)
  datatype Head = Head(latestVersion: U32, active: bool, updatedLedger: U32)

  datatype ContractError =
    Unauthorized | InvalidInput | AlreadyExists | NotFound | Inactive | VersionConflict | UnsupportedHashSchema

  datatype Event =
    | EntityRegistered(entityId: Bytes32, version: U32, metadataHash: Bytes32, hashSchema: U32, registrar: Address,
                       recordedLedger: U32)
    | EntityVersioned(entityId: Bytes32, version: U32, metadataHash: Bytes32, hashSchema: U32, registrar: Address,
                      recordedLedger: U32)
    | EntityDeactivated(entityId: Bytes32, version: U32, operator: Address, reasonHash: Option<Bytes32>,
                        recordedLedger: U32)

  datatype Registry = Registry(
    admin: Address, registrars: set<Address>, schemas: set<U32>,
    heads: map<Bytes32, Head>, versions: map<(Bytes32, U32), Version>, events: seq<Event>)

  datatype Call =
    | RegisterEntity(operator: Address, entityId: Bytes32, metadataHash: Bytes32, hashSchema: U32)
    | VersionEntity(operator: Address, entityId: Bytes32, expectedVersion: U32, metadataHash: Bytes32, hashSchema: U32)
    | DeactivateEntity(operator: Address, entityId: Bytes32, expectedVersion: U32, reasonHash: Option<Bytes32>)
    | GrantRegistrar(account: Address)
    | RevokeRegistrar(account: Address)
    | AllowHashSchema(hashSchema: U32)

  /** `Aborted` is a host trap: missing authorisation, or arithmetic overflow. */
  datatype Reply = At(version: U32) | Done | Failed(error: ContractError) | Aborted

  function Deploy(admin: Address, registrar: Address, hashSchema: U32): Registry {
    Registry(admin, {registrar}, {hashSchema}, map[], map[], [])
  }

  function Register(s: Registry, env: Env, c: Call): (Registry, Reply)
    requires c.RegisterEntity?
  {
    var id := c.entityId;
    if c.operator !in env.auths then (s, Aborted)
    else if c.operator !in s.registrars then (s, Failed(Unauthorized))
    else if c.hashSchema !in s.schemas then (s, Failed(UnsupportedHashSchema))
    else if id in s.heads then
      if (id, 1) !in s.versions then (s, Failed(NotFound))
      else
        var first := s.versions[(id, 1)];
        (s, if first.metadataHash == c.metadataHash && first.hashSchema == c.hashSchema
             then At(1) else Failed(AlreadyExists))
    else
      (s.(heads := s.heads[id := Head(1, true, env.ledger)],
          versions := s.versions[(id, 1) := Version(c.metadataHash, c.hashSchema, 1, c.operator, env.ledger)],
          events := s.events + [EntityRegistered(id, 1, c.metadataHash, c.hashSchema, c.operator, env.ledger)]),
       At(1))
  }

  function AddVersion(s: Registry, env: Env, c: Call): (Registry, Reply)
    requires c.VersionEntity?
  {
    var id := c.entityId;
    if c.operator !in env.auths then (s, Aborted)
    else if c.operator !in s.registrars then (s, Failed(Unauthorized))
    else if c.hashSchema !in s.schemas then (s, Failed(UnsupportedHashSchema))
    else if id !in s.heads then (s, Failed(NotFound))
    else if !s.heads[id].active then (s, Failed(Inactive))
    else if s.heads[id].latestVersion != c.expectedVersion then (s, Failed(VersionConflict))
    else if c.expectedVersion == U32_MAX then (s, Aborted)
    else
      var next := c.expectedVersion + 1;
      (s.(heads := s.heads[id := Head(next, true, env.ledger)],
          versions := s.versions[(id, next) := Version(c.metadataHash, c.hashSchema, next, c.operator, env.ledger)],
          events := s.events + [EntityVersioned(id, next, c.metadataHash, c.hashSchema, c.operator, env.ledger)]),
       At(next))
  }

  function Deactivate(s: Registry, env: Env, c: Call): (Registry, Reply)
    requires c.DeactivateEntity?
  {
    var id := c.entityId;
    if c.operator !in env.auths then (s, Aborted)
    else if c.operator !in s.registrars then (s, Failed(Unauthorized))
    else if id !in s.heads then (s, Failed(NotFound))
    else if s.heads[id].latestVersion != c.expectedVersion then (s, Failed(VersionConflict))
    else if !s.heads[id].active then (s, Done)
    else
      (s.(heads := s.heads[id := Head(c.expectedVersion, false, env.ledger)],
          events := s.events + [EntityDeactivated(id, c.expectedVersion, c.operator, c.reasonHash, env.ledger)]),
       Done)
  }

  function Exec(s: Registry, env: Env, c: Call): (Registry, Reply) {
    match c
    case RegisterEntity(_, _, _, _) => Register(s, env, c)
    case VersionEntity(_, _, _, _, _) => AddVersion(s, env, c)
    case DeactivateEntity(_, _, _, _) => Deactivate(s, env, c)
    case _ =>
      if s.admin !in env.auths then (s, Aborted) else
        match c
        case GrantRegistrar(a) => (s.(registrars := s.registrars + {a}), Done)
        case RevokeRegistrar(a) => (s.(registrars := s.registrars - {a}), Done)
        case AllowHashSchema(h) => (s.(schemas := s.schemas + {h}), Done)
  }

  function Run(s: Registry, txs: seq<(Env, Call)>): Registry
    decreases |txs|
  {
    if txs == [] then s else Run(Exec(s, txs[0].0, txs[0].1).0, txs[1..])
  }

  function VerifyEntity(s: Registry, id: Bytes32, version: U32, metadataHash: Bytes32, hashSchema: U32): bool {
    && id in s.heads && s.heads[id].active
    && (id, version) in s.versions
    && s.versions[(id, version)].metadataHash == metadataHash
    && s.versions[(id, version)].hashSchema == hashSchema
  }

  // ----- dense, immutable history -----

  /** The stored versions of an entity are exactly 1..latest, each filed under its own number. */
  ghost predicate Dense(s: Registry) {
    && (forall id :: id in s.heads ==> 1 <= s.heads[id].latestVersion)
    && (forall id, v: U32 :: (id, v) in s.versions <==> id in s.heads && 1 <= v <= s.heads[id].latestVersion)
    && (forall k :: k in s.versions ==> s.versions[k].version == k.1)
  }

  lemma ExecKeepsDense(s: Registry, env: Env, c: Call)
    requires Dense(s)
    ensures Dense(Exec(s, env, c).0)
  {}

  /** The order between states of one entity: versions grow, and an inactive head is final. */
  ghost predicate Extends(s: Registry, s': Registry) {
    && (forall k :: k in s.versions ==> k in s'.versions && s'.versions[k] == s.versions[k])
    && (forall id :: id in s.heads ==> id in s'.heads && s.heads[id].latestVersion <= s'.heads[id].latestVersion)
    && (forall id :: id in s.heads && !s.heads[id].active ==> s'.heads[id] == s.heads[id])
  }

  lemma ExecExtends(s: Registry, env: Env, c: Call)
    requires Dense(s)
    ensures Extends(s, Exec(s, env, c).0)
  {}

  lemma {:induction false} RunExtends(s: Registry, txs: seq<(Env, Call)>)
    requires Dense(s)
    ensures Dense(Run(s, txs)) && Extends(s, Run(s, txs))
    decreases |txs|
  {
    if txs != [] {
      var s1 := Exec(s, txs[0].0, txs[0].1).0;
      ExecKeepsDense(s, txs[0].0, txs[0].1);
      ExecExtends(s, txs[0].0, txs[0].1);
      RunExtends(s1, txs[1..]);
    }
  }

  /** In every reachable state versions are exactly 1..latest, and no later history changes or drops one. */
  lemma HistoryIsDenseAndImmutable(admin: Address, registrar: Address, schema: U32, txs: seq<(Env, Call)>,
                                   later: seq<(Env, Call)>)
    ensures var s := Run(Deploy(admin, registrar, schema), txs); Dense(s) && Extends(s, Run(s, later))
  {
    RunExtends(Deploy(admin, registrar, schema), txs);
    RunExtends(Run(Deploy(admin, registrar, schema), txs), later);
  }

  /**
   * Optimistic control: after a `version_entity` call has succeeded against an expected version, no
   * later call against the same expected version does, whatever happens in between; and none at all
   * succeeds against a head that was deactivated.
   */
  lemma VersionConflictsAreFinal(s: Registry, env: Env, c: Call, txs: seq<(Env, Call)>, env': Env, c': Call)
    requires Dense(s) && c.VersionEntity? && c'.VersionEntity? && c'.entityId == c.entityId
    requires (c.entityId in s.heads && !s.heads[c.entityId].active)
             || (AddVersion(s, env, c).1.At? && c'.expectedVersion == c.expectedVersion)
    ensures !AddVersion(Run(Exec(s, env, c).0, txs), env', c').1.At?
  {
    var s1 := Exec(s, env, c).0;
    ExecKeepsDense(s, env, c);
    ExecExtends(s, env, c);
    RunExtends(s1, txs);
  }

  // ----- event sourcing -----

  datatype View = View(heads: map<Bytes32, Head>, versions: map<(Bytes32, U32), Version>)

  function Absorb(v: View, e: Event): View {
    match e
    case EntityRegistered(id, n, meta, schema, who, ledger) =>
      View(v.heads[id := Head(n, true, ledger)], v.versions[(id, n) := Version(meta, schema, n, who, ledger)])
    case EntityVersioned(id, n, meta, schema, who, ledger) =>
      View(v.heads[id := Head(n, true, ledger)], v.versions[(id, n) := Version(meta, schema, n, who, ledger)])
    case EntityDeactivated(id, n, _, _, ledger) =>
      v.(heads := v.heads[id := Head(n, false, ledger)])
  }

  function Fold(events: seq<Event>): View {
    if events == [] then View(map[], map[]) else Absorb(Fold(events[..|events| - 1]), events[|events| - 1])
  }

  /** One transaction publishes one event exactly when heads or versions change, and the event is the change. */
  lemma ExecPublishesItsEffect(s: Registry, env: Env, c: Call)
    requires Dense(s)
    ensures var s' := Exec(s, env, c).0;
            || (s'.events == s.events && s'.heads == s.heads && s'.versions == s.versions)
            || (s'.heads != s.heads
                && exists e :: s'.events == s.events + [e]
                               && View(s'.heads, s'.versions) == Absorb(View(s.heads, s.versions), e))
    ensures Exec(s, env, c).1.Failed? || Exec(s, env, c).1.Aborted? ==> Exec(s, env, c).0 == s
  {}

  lemma {:induction false} RunIsEventSourced(s: Registry, txs: seq<(Env, Call)>)
    requires Dense(s) && Fold(s.events) == View(s.heads, s.versions)
    ensures var s' := Run(s, txs); Fold(s'.events) == View(s'.heads, s'.versions)
    decreases |txs|
  {
    if txs != [] {
      var s1 := Exec(s, txs[0].0, txs[0].1).0;
      ExecKeepsDense(s, txs[0].0, txs[0].1);
      ExecPublishesItsEffect(s, txs[0].0, txs[0].1);
      if s1.events != s.events {
        assert s1.events[..|s1.events| - 1] == s.events;
      }
      RunIsEventSourced(s1, txs[1..]);
    }
  }

  /** In every history, folding the published events from nothing rebuilds all heads and all versions. */
  lemma EventsRebuildTheRegistry(admin: Address, registrar: Address, schema: U32, txs: seq<(Env, Call)>)
    ensures var s := Run(Deploy(admin, registrar, schema), txs); Fold(s.events) == View(s.heads, s.versions)
  {
    RunIsEventSourced(Deploy(admin, registrar, schema), txs);
  }

  // ----- what the published events say -----

  predicate IsVersionOf(e: Event, id: Bytes32) {
    (e.EntityRegistered? || e.EntityVersioned?) && e.entityId == id
  }

  /** The version was published with this content. */
  ghost predicate PublishedIn(events: seq<Event>, id: Bytes32, version: U32, metadataHash: Bytes32, hashSchema: U32) {
    exists i :: 0 <= i < |events| && IsVersionOf(events[i], id) && events[i].version == version
                && events[i].metadataHash == metadataHash && events[i].hashSchema == hashSchema
  }

  ghost predicate DeactivatedIn(events: seq<Event>, id: Bytes32) {
    exists i :: 0 <= i < |events| && events[i].EntityDeactivated? && events[i].entityId == id
  }

  /** How many versions of an entity were published. */
  function VersionsOf(events: seq<Event>, id: Bytes32): nat {
    if events == [] then 0
    else VersionsOf(events[..|events| - 1], id) + if IsVersionOf(events[|events| - 1], id) then 1 else 0
  }

  ghost predicate Told(s: Registry, e: Event) {
    if e.EntityDeactivated? then e.entityId in s.heads && !s.heads[e.entityId].active
    else
      && (e.entityId, e.version) in s.versions
      && s.versions[(e.entityId, e.version)].metadataHash == e.metadataHash
      && s.versions[(e.entityId, e.version)].hashSchema == e.hashSchema
  }

  /** The events tell of every version and every deactivation, and of no others. */
  ghost predicate EventsTell(s: Registry) {
    && (forall i :: 0 <= i < |s.events| ==> Told(s, s.events[i]))
    && (forall k :: k in s.versions ==>
        PublishedIn(s.events, k.0, k.1, s.versions[k].metadataHash, s.versions[k].hashSchema))
    && (forall id :: id in s.heads && !s.heads[id].active ==> DeactivatedIn(s.events, id))
    && (forall id :: VersionsOf(s.events, id) == if id in s.heads then s.heads[id].latestVersion else 0)
  }

  lemma MoreEventsTellMore(events: seq<Event>, e: Event, id: Bytes32, version: U32, metadataHash: Bytes32,
                           hashSchema: U32)
    ensures PublishedIn(events, id, version, metadataHash, hashSchema) ==>
              PublishedIn(events + [e], id, version, metadataHash, hashSchema)
    ensures DeactivatedIn(events, id) ==> DeactivatedIn(events + [e], id)
    ensures !e.EntityDeactivated? ==> PublishedIn(events + [e], e.entityId, e.version, e.metadataHash, e.hashSchema)
    ensures e.EntityDeactivated? ==> DeactivatedIn(events + [e], e.entityId)
    ensures VersionsOf(events + [e], id) == VersionsOf(events, id) + if IsVersionOf(e, id) then 1 else 0
  {
    var more := events + [e];
    assert more[..|events|] == events;
    assert more[|events|] == e && forall i :: 0 <= i < |events| ==> more[i] == events[i];
  }

  lemma SameTold(s: Registry, s': Registry)
    requires EventsTell(s) && s'.heads == s.heads && s'.versions == s.versions && s'.events == s.events
    ensures EventsTell(s')
  {
    hide PublishedIn, DeactivatedIn, VersionsOf;
    forall i | 0 <= i < |s'.events| ensures Told(s', s'.events[i]) { assert Told(s, s.events[i]); }
  }

  /** One more event is told of, when it made the change. */
  lemma OneMoreTold(s: Registry, s': Registry, e: Event)
    requires EventsTell(s) && Extends(s, s') && s'.events == s.events + [e] && Told(s', e)
    requires forall k :: k in s'.versions && k !in s.versions ==> !e.EntityDeactivated? && k == (e.entityId, e.version)
    requires forall id :: id in s'.heads && !s'.heads[id].active ==>
               (id in s.heads && !s.heads[id].active) || (e.EntityDeactivated? && e.entityId == id)
    requires forall id :: (if id in s'.heads then s'.heads[id].latestVersion else 0)
               == (if id in s.heads then s.heads[id].latestVersion else 0) + if IsVersionOf(e, id) then 1 else 0
    ensures EventsTell(s')
  {
    hide PublishedIn, DeactivatedIn, VersionsOf;
    forall i | 0 <= i < |s'.events| ensures Told(s', s'.events[i]) {
      if i < |s.events| { assert Told(s, s.events[i]); }
    }
    forall k | k in s'.versions
      ensures PublishedIn(s'.events, k.0, k.1, s'.versions[k].metadataHash, s'.versions[k].hashSchema)
    {
      MoreEventsTellMore(s.events, e, k.0, k.1, s'.versions[k].metadataHash, s'.versions[k].hashSchema);
    }
    forall id
      ensures VersionsOf(s'.events, id) == if id in s'.heads then s'.heads[id].latestVersion else 0
      ensures id in s'.heads && !s'.heads[id].active ==> DeactivatedIn(s'.events, id)
    {
      MoreEventsTellMore(s.events, e, id, 1, ZERO32, 1);
    }
  }

  lemma ExecKeepsTelling(s: Registry, env: Env, c: Call)
    requires Dense(s) && EventsTell(s)
    ensures EventsTell(Exec(s, env, c).0)
  {
    hide EventsTell;
    var s' := Exec(s, env, c).0;
    ExecExtends(s, env, c);
    if s'.events == s.events {
      SameTold(s, s');
    } else {
      OneMoreTold(s, s', s'.events[|s.events|]);
    }
  }

  /** What every transaction keeps. */
  ghost predicate Sound(s: Registry) {
    Dense(s) && EventsTell(s)
  }

  lemma ExecKeepsSound(s: Registry, env: Env, c: Call)
    requires Sound(s)
    ensures Sound(Exec(s, env, c).0)
  {
    hide Dense, EventsTell, Exec;
    ExecKeepsDense(s, env, c);
    ExecKeepsTelling(s, env, c);
  }

  lemma {:induction false} RunKeepsSound(s: Registry, txs: seq<(Env, Call)>)
    requires Sound(s)
    ensures Sound(Run(s, txs))
    decreases |txs|
  {
    hide Sound, Exec;
    if txs != [] {
      ExecKeepsSound(s, txs[0].0, txs[0].1);
      RunKeepsSound(Exec(s, txs[0].0, txs[0].1).0, txs[1..]);
    }
  }

  lemma VerifiesWhenTold(s: Registry, id: Bytes32, version: U32, metadataHash: Bytes32, hashSchema: U32)
    requires Sound(s)
    ensures VerifyEntity(s, id, version, metadataHash, hashSchema)
            <==> PublishedIn(s.events, id, version, metadataHash, hashSchema) && !DeactivatedIn(s.events, id)
  {
    if (id, version) in s.versions { assert id in s.heads; }
  }

  /**
   * In every history a version verifies against a hash and a schema exactly when it was published with
   * just these and its entity never as deactivated.
   */
  lemma VerifiesExactlyWhen(admin: Address, registrar: Address, schema: U32, txs: seq<(Env, Call)>, id: Bytes32,
                            version: U32, metadataHash: Bytes32, hashSchema: U32)
    ensures var s := Run(Deploy(admin, registrar, schema), txs);
            VerifyEntity(s, id, version, metadataHash, hashSchema)
            <==> PublishedIn(s.events, id, version, metadataHash, hashSchema) && !DeactivatedIn(s.events, id)
  {
    hide PublishedIn, DeactivatedIn, VerifyEntity, Sound;
    assert Sound(Deploy(admin, registrar, schema)) by { DeploymentIsSound(admin, registrar, schema); }
    RunKeepsSound(Deploy(admin, registrar, schema), txs);
    VerifiesWhenTold(Run(Deploy(admin, registrar, schema), txs), id, version, metadataHash, hashSchema);
  }

  lemma DeploymentIsSound(admin: Address, registrar: Address, schema: U32)
    ensures Sound(Deploy(admin, registrar, schema))
  {}

  // ----- which calls succeed, by what was published before -----

  ghost predicate Authorised(s: Registry, env: Env, operator: Address) {
    operator in env.auths && operator in s.registrars
  }

  /** A registration succeeds on an entity that was never published, or was first with the same content. */
  lemma RegisterSucceedsExactlyWhen(s: Registry, env: Env, c: Call)
    requires Sound(s) && c.RegisterEntity?
    ensures var (s', reply), id := Exec(s, env, c), c.entityId;
            && (reply.At? <==>
                && Authorised(s, env, c.operator) && c.hashSchema in s.schemas
                && (VersionsOf(s.events, id) == 0 || PublishedIn(s.events, id, 1, c.metadataHash, c.hashSchema)))
            && (reply.At? ==>
                && reply.version == 1
                && s'.events == s.events + if VersionsOf(s.events, id) > 0 then []
                   else [EntityRegistered(id, 1, c.metadataHash, c.hashSchema, c.operator, env.ledger)])
  {
    hide VersionsOf;
    if c.entityId in s.heads { VerifiesOnce(s, c.entityId, 1, c.metadataHash, c.hashSchema); }
  }

  /** One version has one content. */
  lemma VerifiesOnce(s: Registry, id: Bytes32, version: U32, metadataHash: Bytes32, hashSchema: U32)
    requires Sound(s)
    ensures PublishedIn(s.events, id, version, metadataHash, hashSchema)
            <==> (id, version) in s.versions && s.versions[(id, version)].metadataHash == metadataHash
                 && s.versions[(id, version)].hashSchema == hashSchema
  {
    if PublishedIn(s.events, id, version, metadataHash, hashSchema) {
      var i :| 0 <= i < |s.events| && IsVersionOf(s.events[i], id) && s.events[i].version == version
               && s.events[i].metadataHash == metadataHash && s.events[i].hashSchema == hashSchema;
      assert Told(s, s.events[i]);
    }
  }

  /** A new version succeeds when the caller expects as many versions as were published, and no deactivation was. */
  lemma VersionSucceedsExactlyWhen(s: Registry, env: Env, c: Call)
    requires Sound(s) && c.VersionEntity?
    ensures var (s', reply), id := Exec(s, env, c), c.entityId;
            && (reply.At? <==>
                && Authorised(s, env, c.operator) && c.hashSchema in s.schemas
                && 0 < c.expectedVersion == VersionsOf(s.events, id) && !DeactivatedIn(s.events, id)
                && c.expectedVersion < U32_MAX)
            && (reply.At? ==>
                && reply.version as nat == c.expectedVersion + 1
                && s'.events == s.events + [EntityVersioned(id, c.expectedVersion + 1, c.metadataHash, c.hashSchema,
                                                            c.operator, env.ledger)])
  {
    hide VersionsOf;
    DeactivatedOnce(s, c.entityId);
  }

  lemma DeactivatedOnce(s: Registry, id: Bytes32)
    requires Sound(s)
    ensures DeactivatedIn(s.events, id) <==> id in s.heads && !s.heads[id].active
  {
    if DeactivatedIn(s.events, id) {
      var i :| 0 <= i < |s.events| && s.events[i].EntityDeactivated? && s.events[i].entityId == id;
      assert Told(s, s.events[i]);
    }
  }

  /** A deactivation succeeds when the caller expects as many versions as were published; a second one says nothing. */
  lemma DeactivateSucceedsExactlyWhen(s: Registry, env: Env, c: Call)
    requires Sound(s) && c.DeactivateEntity?
    ensures var (s', reply), id := Exec(s, env, c), c.entityId;
            && (reply.Done? <==>
                Authorised(s, env, c.operator) && 0 < c.expectedVersion == VersionsOf(s.events, id))
            && (reply.Done? ==>
                s'.events == s.events + if DeactivatedIn(s.events, id) then []
                else [EntityDeactivated(id, c.expectedVersion, c.operator, c.reasonHash, env.ledger)])
  {
    hide VersionsOf;
    DeactivatedOnce(s, c.entityId);
  }

  /** A refusal names a check that failed. */
  lemma RefusalsNameTheirCause(s: Registry, env: Env, c: Call)
    requires Sound(s) && Exec(s, env, c).1.Failed?
    ensures match Exec(s, env, c).1.error
            case Unauthorized => c.operator !in s.registrars
            case UnsupportedHashSchema => c.hashSchema !in s.schemas
            case NotFound => VersionsOf(s.events, c.entityId) == 0
            case Inactive => c.VersionEntity? && DeactivatedIn(s.events, c.entityId)
            case VersionConflict => c.expectedVersion != VersionsOf(s.events, c.entityId)
            case AlreadyExists => c.RegisterEntity? && VersionsOf(s.events, c.entityId) > 0
            case InvalidInput => false
  {
    hide VersionsOf, PublishedIn;
    if !c.GrantRegistrar? && !c.RevokeRegistrar? && !c.AllowHashSchema? { DeactivatedOnce(s, c.entityId); }
  }

  // ----- registrars and schemas -----

  lemma {:induction false} RunSnoc(s: Registry, txs: seq<(Env, Call)>, tx: (Env, Call))
    ensures Run(s, txs + [tx]) == Exec(Run(s, txs), tx.0, tx.1).0
    decreases |txs|
  {
    hide Exec;
    if txs == [] {
      assert txs + [tx] == [tx] && [tx][1..] == [];
    } else {
      assert (txs + [tx])[1..] == txs[1..] + [tx];
      RunSnoc(Exec(s, txs[0].0, txs[0].1).0, txs[1..], tx);
    }
  }

  ghost predicate AsGranted(s: Registry, start: Registry, txs: seq<(Env, Call)>, account: Address, schema: U32) {
    var a := start.admin;
    && s.admin == a
    && (account in s.registrars
        <==> Stands(txs, a, account in start.registrars, GrantRegistrar(account), Some(RevokeRegistrar(account))))
    && (schema in s.schemas <==> Stands(txs, a, schema in start.schemas, AllowHashSchema(schema), None))
  }

  /** What one transaction makes of each right. */
  lemma ExecRights(s: Registry, tx: (Env, Call), account: Address, schema: U32)
    ensures var s' := Exec(s, tx.0, tx.1).0;
            && s'.admin == s.admin
            && (account in s'.registrars
                <==> Does(tx, s.admin, GrantRegistrar(account))
                     || (account in s.registrars && !Does(tx, s.admin, RevokeRegistrar(account))))
            && (schema in s'.schemas <==> Does(tx, s.admin, AllowHashSchema(schema)) || schema in s.schemas)
  {}

  /**
   * In every history who may write and which schemas are allowed is what the admin's own transactions
   * last made of it, from what the deployment set.
   */
  lemma {:induction false} RightsAreWhatWasGranted(start: Registry, txs: seq<(Env, Call)>, account: Address,
                                                   schema: U32)
    ensures AsGranted(Run(start, txs), start, txs, account, schema)
    decreases |txs|
  {
    hide Exec, Stands, Does;
    var a := start.admin;
    if txs == [] {
      NothingGranted(start, account, schema);
    } else {
      var before, tx := txs[..|txs| - 1], txs[|txs| - 1];
      assert txs == before + [tx];
      RightsAreWhatWasGranted(start, before, account, schema);
      RunSnoc(start, before, tx);
      ExecRights(Run(start, before), tx, account, schema);
      StandsOn(before, tx, a, account in start.registrars, GrantRegistrar(account), Some(RevokeRegistrar(account)));
      StandsOn(before, tx, a, schema in start.schemas, AllowHashSchema(schema), None);
    }
  }

  /** From the deployment on: its registrar and its schema. */
  lemma RightsSinceDeployment(admin: Address, registrar: Address, schema: U32, txs: seq<(Env, Call)>,
                              account: Address, h: U32)
    ensures var s := Run(Deploy(admin, registrar, schema), txs);
            && (account in s.registrars
                <==> Stands(txs, admin, account == registrar, GrantRegistrar(account), Some(RevokeRegistrar(account))))
            && (h in s.schemas <==> Stands(txs, admin, h == schema, AllowHashSchema(h), None))
  {
    hide Stands, Run;
    RightsAreWhatWasGranted(Deploy(admin, registrar, schema), txs, account, h);
  }

  lemma NothingGranted(start: Registry, account: Address, schema: U32)
    ensures AsGranted(start, start, [], account, schema)
  {}

  // ----- the contract object -----

  class Contract {
    var admin: Address
    var registrars: set<Address>
    var schemas: set<U32>
    var heads: map<Bytes32, Head>
    var versions: map<(Bytes32, U32), Version>
    var events: seq<Event>

    ghost function Storage(): Registry
      reads this
    {
      Registry(admin, registrars, schemas, heads, versions, events)
    }

    constructor (admin: Address, registrar: Address, hashSchema: U32)
      ensures Storage() == Deploy(admin, registrar, hashSchema) && Sound(Storage())
    {
      this.admin := admin;
      registrars, schemas := {registrar}, {hashSchema};
      heads, versions, events := map[], map[], [];
    }

    method RegisterEntity(env: Env, operator: Address, entityId: Bytes32, metadataHash: Bytes32,
                          hashSchema: U32)
      returns (reply: Reply)
      modifies this`heads, this`versions, this`events
      ensures (Storage(), reply)
              == Exec(old(Storage()), env, Call.RegisterEntity(operator, entityId, metadataHash, hashSchema))
      ensures old(Sound(Storage())) ==> Sound(Storage())
    {
      if Sound(Storage()) {
        ExecKeepsSound(Storage(), env, Call.RegisterEntity(operator, entityId, metadataHash, hashSchema));
      }
      if operator !in env.auths { return Aborted; }
      if operator !in registrars { return Failed(Unauthorized); }
      if hashSchema !in schemas { return Failed(UnsupportedHashSchema); }
      if entityId in heads {
        if (entityId, 1) !in versions { return Failed(NotFound); }
        var first := versions[(entityId, 1)];
        return if first.metadataHash == metadataHash && first.hashSchema == hashSchema
          then At(1) else Failed(AlreadyExists);
      }
      heads := heads[entityId := Head(1, true, env.ledger)];
      versions := versions[(entityId, 1) := Version(metadataHash, hashSchema, 1, operator, env.ledger)];
      events := events + [EntityRegistered(entityId, 1, metadataHash, hashSchema, operator, env.ledger)];
      return At(1);
    }

    method VersionEntity(env: Env, operator: Address, entityId: Bytes32, expectedVersion: U32, metadataHash: Bytes32,
                         hashSchema: U32)
      returns (reply: Reply)
      modifies this`heads, this`versions, this`events
      ensures (Storage(), reply)
              == Exec(old(Storage()), env,
                      Call.VersionEntity(operator, entityId, expectedVersion, metadataHash, hashSchema))
      ensures old(Sound(Storage())) ==> Sound(Storage())
    {
      if Sound(Storage()) {
        ExecKeepsSound(Storage(), env,
                       Call.VersionEntity(operator, entityId, expectedVersion, metadataHash, hashSchema));
      }
      if operator !in env.auths { return Aborted; }
      if operator !in registrars { return Failed(Unauthorized); }
      if hashSchema !in schemas { return Failed(UnsupportedHashSchema); }
      if entityId !in heads { return Failed(NotFound); }
      var head := heads[entityId];
      if !head.active { return Failed(Inactive); }
      if head.latestVersion != expectedVersion { return Failed(VersionConflict); }
      if head.latestVersion == U32_MAX { return Aborted; }
      var newVersion := head.latestVersion + 1;
      heads := heads[entityId := Head(newVersion, true, env.ledger)];
      versions :=
        versions[(entityId, newVersion) := Version(metadataHash, hashSchema, newVersion, operator, env.ledger)];
      events := events + [EntityVersioned(entityId, newVersion, metadataHash, hashSchema, operator, env.ledger)];
      return At(newVersion);
    }

    method DeactivateEntity(env: Env, operator: Address, entityId: Bytes32, expectedVersion: U32,
                            reasonHash: Option<Bytes32>)
      returns (reply: Reply)
      modifies this`heads, this`events
      ensures (Storage(), reply)
              == Exec(old(Storage()), env, Call.DeactivateEntity(operator, entityId, expectedVersion, reasonHash))
      ensures old(Sound(Storage())) ==> Sound(Storage())
    {
      if Sound(Storage()) {
        ExecKeepsSound(Storage(), env, Call.DeactivateEntity(operator, entityId, expectedVersion, reasonHash));
      }
      if operator !in env.auths { return Aborted; }
      if operator !in registrars { return Failed(Unauthorized); }
      if entityId !in heads { return Failed(NotFound); }
      var head := heads[entityId];
      if head.latestVersion != expectedVersion { return Failed(VersionConflict); }
      if head.active {
        heads := heads[entityId := Head(head.latestVersion, false, env.ledger)];
        events := events + [EntityDeactivated(entityId, head.latestVersion, operator, reasonHash, env.ledger)];
      }
      return Done;
    }

    /** Public verification, over a storage whose events tell of its versions. */
    method Verify(entityId: Bytes32, version: U32, metadataHash: Bytes32, hashSchema: U32) returns (ok: bool)
      requires Sound(Storage())
      ensures ok == VerifyEntity(Storage(), entityId, version, metadataHash, hashSchema)
      ensures ok <==> PublishedIn(events, entityId, version, metadataHash, hashSchema)
                      && !DeactivatedIn(events, entityId)
    {
      VerifiesWhenTold(Storage(), entityId, version, metadataHash, hashSchema);
      if entityId !in heads { return false; }
      if !heads[entityId].active { return false; }
      if (entityId, version) !in versions { return false; }
      var v := versions[(entityId, version)];
      return v.metadataHash == metadataHash && v.hashSchema == hashSchema;
    }
  }
}
