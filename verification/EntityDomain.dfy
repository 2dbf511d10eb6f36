/**
 * The off-chain twin of the entity registry: pure functions that return a new record or an error,
 * and the proof that they simulate the contract.
 */
module EntityDomain {
  import opened Common
  import opened Grants
  import Chain = EntityRegistry

  datatype DomainError = InvalidInput | AlreadyExists | Inactive | VersionConflict

  datatype EntityVersion = EntityVersion(
    version: nat, metadataHash: string, hashSchema: int, registrarId: string, recordedAt: string,
    recordedLedger: Option<nat>)

  datatype EntityRecord = EntityRecord(entityId: string, active: bool, latestVersion: nat, versions: seq<EntityVersion>)

  datatype Content = Content(metadataHash: string, hashSchema: int, registrarId: string, recordedAt: string)

  predicate ContentOk(input: Content) {
    IsHex64(input.metadataHash) && 0 < input.hashSchema && input.registrarId != ""
  }

  function Entry(version: nat, input: Content): EntityVersion {
    EntityVersion(version, input.metadataHash, input.hashSchema, input.registrarId, input.recordedAt, None)
  }

  /** History is dense: the i-th entry carries version i + 1. */
  predicate WellFormed(r: EntityRecord) {
    1 <= r.latestVersion == |r.versions| && forall i :: 0 <= i < |r.versions| ==> r.versions[i].version == i + 1
  }

  function RegisterEntity(existing: Option<EntityRecord>, entityId: string, input: Content)
    : (r: Result<EntityRecord, DomainError>)
    requires existing.Some? ==> WellFormed(existing.value)
    ensures r.Ok? ==> WellFormed(r.value)
  {
    if !ContentOk(input) then Err(InvalidInput)
    else if existing.Some? then
      var head := existing.value.versions[existing.value.latestVersion - 1];
      if head.metadataHash == input.metadataHash && head.hashSchema == input.hashSchema
        then Ok(existing.value) else Err(AlreadyExists)
    else Ok(EntityRecord(entityId, true, 1, [Entry(1, input)]))
  }

  /** A new version is appended; every earlier one stays where it was. */
  function VersionEntity(record: EntityRecord, expectedVersion: nat, input: Content)
    : (r: Result<EntityRecord, DomainError>)
    requires WellFormed(record)
    ensures r.Ok? ==> WellFormed(r.value) && record.versions < r.value.versions
  {
    if !ContentOk(input) then Err(InvalidInput)
    else if !record.active then Err(Inactive)
    else if expectedVersion != record.latestVersion then Err(VersionConflict)
    else
      var next := Entry(record.latestVersion + 1, input);
      Ok(record.(latestVersion := next.version, versions := record.versions + [next]))
  }

  function DeactivateEntity(record: EntityRecord, expectedVersion: nat): (r: Result<EntityRecord, DomainError>)
    requires WellFormed(record)
    ensures r.Ok? ==> WellFormed(r.value) && r.value.versions == record.versions
  {
    if expectedVersion != record.latestVersion then Err(VersionConflict)
    else if !record.active then Ok(record)
    else Ok(record.(active := false))
  }

  // ----- simulation -----

  ghost predicate SameVersion(mine: EntityVersion, theirs: Chain.Version) {
    mine.metadataHash == Hex(theirs.metadataHash) && mine.hashSchema == theirs.hashSchema
      && mine.version == theirs.version
  }

  /** A record mirrors what the contract stores under `id`. */
  ghost predicate Mirrors(record: EntityRecord, s: Chain.Registry, id: Bytes32) {
    && WellFormed(record)
    && id in s.heads
    && record.latestVersion == s.heads[id].latestVersion
    && record.active == s.heads[id].active
    && forall v: U32 :: 1 <= v <= record.latestVersion ==>
       (id, v) in s.versions && SameVersion(record.versions[v - 1], s.versions[(id, v)])
  }

  /** The operations that follow a first registration, each with its own transaction, caller and author. */
  datatype Update =
    | Version(env: Env, operator: Address, expected: U32, metadataHash: Bytes32, hashSchema: U32,
              registrarId: string, recordedAt: string)
    | Deactivate(env: Env, operator: Address, expected: U32, reasonHash: Option<Bytes32>)

  function OffChain(record: EntityRecord, u: Update): Result<EntityRecord, DomainError>
    requires WellFormed(record)
  {
    match u
    case Version(_, _, expected, meta, schema, author, at) =>
      VersionEntity(record, expected, Content(Hex(meta), schema, author, at))
    case Deactivate(_, _, expected, _) => DeactivateEntity(record, expected)
  }

  function OnChain(s: Chain.Registry, id: Bytes32, u: Update): (Chain.Registry, Chain.Reply) {
    match u
    case Version(env, operator, expected, meta, schema, _, _) =>
      Chain.Exec(s, env, Chain.VersionEntity(operator, id, expected, meta, schema))
    case Deactivate(env, operator, expected, reason) =>
      Chain.Exec(s, env, Chain.DeactivateEntity(operator, id, expected, reason))
  }

  predicate SameOutcome(mine: Result<EntityRecord, DomainError>, theirs: Chain.Reply) {
    match theirs
    case At(v) => mine.Ok? && mine.value.latestVersion == v
    case Done => mine.Ok?
    case Failed(Inactive) => mine == Err(Inactive)
    case Failed(VersionConflict) => mine == Err(VersionConflict)
    case _ => false
  }

  /** The caller is who the contract asks for. */
  ghost predicate Admitted(s: Chain.Registry, env: Env, operator: Address) {
    operator in env.auths && operator in s.registrars
  }

  ghost predicate AdmittedUpdate(s: Chain.Registry, u: Update) {
    && Admitted(s, u.env, u.operator)
    && (u.Version? ==> u.hashSchema in s.schemas && 0 < u.hashSchema && u.registrarId != "")
  }

  lemma UpdateSimulates(record: EntityRecord, s: Chain.Registry, id: Bytes32, u: Update)
    requires Mirrors(record, s, id) && AdmittedUpdate(s, u) && record.latestVersion < U32_MAX
    ensures var mine, theirs := OffChain(record, u), OnChain(s, id, u);
            && SameOutcome(mine, theirs.1) && Mirrors(if mine.Ok? then mine.value else record, theirs.0, id)
            && theirs.0.registrars == s.registrars && theirs.0.schemas == s.schemas
            && (mine.Ok? ==> mine.value.latestVersion <= record.latestVersion + 1)
  {}

  /** Drives both sides through the same updates; a failed one leaves its side as it was. */
  ghost predicate StayTogether(record: EntityRecord, s: Chain.Registry, id: Bytes32, updates: seq<Update>)
    requires WellFormed(record)
    decreases |updates|
  {
    Mirrors(record, s, id) &&
    (updates == [] ||
     (var mine, theirs := OffChain(record, updates[0]), OnChain(s, id, updates[0]);
      && SameOutcome(mine, theirs.1)
      && StayTogether(if mine.Ok? then mine.value else record, theirs.0, id, updates[1..])))
  }

  lemma {:induction false} UpdatesSimulate(record: EntityRecord, s: Chain.Registry, id: Bytes32, updates: seq<Update>)
    requires Mirrors(record, s, id) && forall u :: u in updates ==> AdmittedUpdate(s, u)
    requires record.latestVersion + |updates| <= U32_MAX
    ensures StayTogether(record, s, id, updates)
    decreases |updates|
  {
    if updates != [] {
      var u := updates[0];
      UpdateSimulates(record, s, id, u);
      var mine, theirs := OffChain(record, u), OnChain(s, id, u);
      forall v | v in updates[1..] ensures AdmittedUpdate(theirs.0, v) {
        assert v in updates && AdmittedUpdate(s, v);
      }
      UpdatesSimulate(if mine.Ok? then mine.value else record, theirs.0, id, updates[1..]);
    }
  }

  lemma FirstRegistrationMirrors(s: Chain.Registry, env: Env, operator: Address, id: Bytes32,
                                 metadataHash: Bytes32, hashSchema: U32, entityId: string, registrarId: string,
                                 recordedAt: string)
    requires Admitted(s, env, operator) && registrarId != "" && id !in s.heads
    requires hashSchema in s.schemas && 0 < hashSchema
    ensures var mine := RegisterEntity(None, entityId, Content(Hex(metadataHash), hashSchema, registrarId, recordedAt));
            var theirs := Chain.Exec(s, env, Chain.RegisterEntity(operator, id, metadataHash, hashSchema));
            && mine.Ok? && theirs.1 == Chain.At(1) && mine.value.latestVersion == 1 && Mirrors(mine.value, theirs.0, id)
            && theirs.0.registrars == s.registrars && theirs.0.schemas == s.schemas
  {}

  /**
   * A first registration followed by any versions and deactivations, in any ledgers, by any admitted
   * callers and authors: both sides accept and refuse the same operations, with the same error, and
   * hold the same history after each.
   */
  lemma EntityFunctionsSimulateTheContract(s: Chain.Registry, env: Env, operator: Address, id: Bytes32,
                                           metadataHash: Bytes32, hashSchema: U32, updates: seq<Update>,
                                           entityId: string, registrarId: string, recordedAt: string)
    requires Admitted(s, env, operator) && registrarId != "" && id !in s.heads
    requires hashSchema in s.schemas && 0 < hashSchema
    requires |updates| < U32_MAX && forall u :: u in updates ==> AdmittedUpdate(s, u)
    ensures var mine := RegisterEntity(None, entityId, Content(Hex(metadataHash), hashSchema, registrarId, recordedAt));
            var theirs := Chain.Exec(s, env, Chain.RegisterEntity(operator, id, metadataHash, hashSchema));
            mine.Ok? && theirs.1 == Chain.At(1) && StayTogether(mine.value, theirs.0, id, updates)
  {
    FirstRegistrationMirrors(s, env, operator, id, metadataHash, hashSchema, entityId, registrarId, recordedAt);
    var mine := RegisterEntity(None, entityId, Content(Hex(metadataHash), hashSchema, registrarId, recordedAt));
    var theirs := Chain.Exec(s, env, Chain.RegisterEntity(operator, id, metadataHash, hashSchema));
    UpdatesSimulate(mine.value, theirs.0, id, updates);
  }

  lemma ReRegistration(record: EntityRecord, s: Chain.Registry, env: Env, operator: Address, id: Bytes32,
                       meta: Bytes32, schema: U32, entityId: string, registrarId: string, recordedAt: string)
    requires Mirrors(record, s, id) && Admitted(s, env, operator) && registrarId != "" && schema in s.schemas
             && 0 < schema
    ensures var first, head := s.versions[(id, 1)], s.versions[(id, record.latestVersion)];
            && (RegisterEntity(Some(record), entityId, Content(Hex(meta), schema, registrarId, recordedAt)).Ok?
                <==> meta == head.metadataHash && schema == head.hashSchema)
            && (Chain.Exec(s, env, Chain.RegisterEntity(operator, id, meta, schema)).1 == Chain.At(1)
                <==> meta == first.metadataHash && schema == first.hashSchema)
  {
    var head := s.versions[(id, record.latestVersion)];
    assert IsHex64(Hex(meta));
    assert SameVersion(record.versions[record.latestVersion - 1], head);
    HexIsInjective(meta, head.metadataHash);
  }

  /**
   * Registering again is where the two part: the contract compares with version 1, the function
   * with the head. They agree on every content exactly when those two versions carry the same one.
   */
  lemma ReRegistrationAgreesExactlyWhen(record: EntityRecord, s: Chain.Registry, env: Env, operator: Address,
                                        id: Bytes32, entityId: string, registrarId: string, recordedAt: string)
    requires Mirrors(record, s, id) && Admitted(s, env, operator) && registrarId != ""
    requires forall h :: h in s.schemas ==> 0 < h
    requires s.versions[(id, 1)].hashSchema in s.schemas
             && s.versions[(id, record.latestVersion)].hashSchema in s.schemas
    ensures (forall meta: Bytes32, schema: U32 :: schema in s.schemas ==>
               (RegisterEntity(Some(record), entityId, Content(Hex(meta), schema, registrarId, recordedAt)).Ok?
                <==> Chain.Exec(s, env, Chain.RegisterEntity(operator, id, meta, schema)).1 == Chain.At(1)))
            <==> SameContent(s.versions[(id, 1)], s.versions[(id, record.latestVersion)])
  {
    var first, head := s.versions[(id, 1)], s.versions[(id, record.latestVersion)];
    forall meta: Bytes32, schema: U32 | schema in s.schemas
      ensures RegisterEntity(Some(record), entityId, Content(Hex(meta), schema, registrarId, recordedAt)).Ok?
              <==> meta == head.metadataHash && schema == head.hashSchema
      ensures Chain.Exec(s, env, Chain.RegisterEntity(operator, id, meta, schema)).1 == Chain.At(1)
              <==> meta == first.metadataHash && schema == first.hashSchema
    {
      ReRegistration(record, s, env, operator, id, meta, schema, entityId, registrarId, recordedAt);
    }
    if !SameContent(first, head) {
      ReRegistration(record, s, env, operator, id, first.metadataHash, first.hashSchema, entityId, registrarId,
                     recordedAt);
    }
  }

  predicate SameContent(a: Chain.Version, b: Chain.Version) {
    a.metadataHash == b.metadataHash && a.hashSchema == b.hashSchema
  }

  // ----- what the functions make of their input -----

  /** A content that is no lower-case SHA-256 text under a positive schema by a named registrar. */
  predicate Malformed(input: Content) {
    !IsDigestText(input.metadataHash) || input.hashSchema <= 0 || |input.registrarId| == 0
  }

  /** Malformed content is refused before anything else is looked at, and only that is refused as such. */
  lemma RefusedAsInvalidExactlyWhen(existing: Option<EntityRecord>, record: EntityRecord, entityId: string,
                                    expected: nat, input: Content)
    requires WellFormed(record) && (existing.Some? ==> WellFormed(existing.value))
    ensures RegisterEntity(existing, entityId, input) == Err(InvalidInput) <==> Malformed(input)
    ensures VersionEntity(record, expected, input) == Err(InvalidInput) <==> Malformed(input)
  {
    DigestTexts(input.metadataHash);
  }

  /** A first registration and a new version file the input as it is, under the next number and no ledger. */
  lemma FilesTheInput(record: EntityRecord, entityId: string, expected: nat, input: Content)
    requires WellFormed(record)
    ensures var r := RegisterEntity(None, entityId, input);
            r.Ok? ==> r.value.entityId == entityId && r.value.active && r.value.latestVersion == |r.value.versions| == 1
                      && Files(r.value.versions[0], 1, input)
    ensures var r := VersionEntity(record, expected, input);
            r.Ok? ==>
              && record.active && expected == record.latestVersion
              && r.value == record.(latestVersion := record.latestVersion + 1, versions := r.value.versions)
              && |r.value.versions| == |record.versions| + 1 && r.value.versions[..|record.versions|] == record.versions
              && Files(r.value.versions[|record.versions|], record.latestVersion + 1, input)
  {}

  predicate Files(v: EntityVersion, version: nat, input: Content) {
    && v.version == version && v.recordedLedger == None
    && v.metadataHash == input.metadataHash && v.hashSchema == input.hashSchema
    && v.registrarId == input.registrarId && v.recordedAt == input.recordedAt
  }
}
