/** InMemoryIndexer: contract events, deduplicated and projected; a read model that is a function of the events. */
module Indexer {
  import opened Common

  datatype Data = Data(entityId: Option<string>, credentialId: Option<string>, subjectId: Option<string>,
                       issuerId: Option<string>, eventId: Option<string>, other: map<string, string>)

  datatype Event = Event(network: string, contractId: string, ledger: nat, eventIndex: nat, eventType: string,
                         data: Data)

  datatype Indexed = Indexed(network: string, contractId: string, ledger: nat, eventIndex: nat, eventType: string,
                             entityId: Option<string>, credentialId: Option<string>, subjectId: Option<string>,
                             issuerId: Option<string>, eventEntityId: Option<string>, data: Data)

  /** A JavaScript `Map`: entries with their keys in insertion order. */
  datatype JsMap<V> = JsMap(keys: seq<string>, at: map<string, V>) {
    ghost predicate Ok() {
      (forall k :: k in keys <==> k in at) && forall i, j :: 0 <= i < j < |keys| ==> keys[i] != keys[j]
    }

    function Set(k: string, v: V): JsMap<V> {
      JsMap(if k in at then keys else keys + [k], at[k := v])
    }

    function Values(): seq<V> {
      ValuesAt(keys, at)
    }
  }

  function ValuesAt<V>(keys: seq<string>, at: map<string, V>): seq<V> {
    if keys == [] then []
    else ValuesAt(keys[..|keys| - 1], at) + if keys[|keys| - 1] in at then [at[keys[|keys| - 1]]] else []
  }

  lemma {:induction false} ValuesElsewhere<V>(keys: seq<string>, at: map<string, V>, k: string, v: V)
    requires k !in keys
    ensures ValuesAt(keys, at[k := v]) == ValuesAt(keys, at)
    decreases |keys|
  {
    if keys != [] {
      assert keys[|keys| - 1] in keys;
      ValuesElsewhere(keys[..|keys| - 1], at, k, v);
    }
  }

  lemma SetNewValue<V>(m: JsMap<V>, k: string, v: V)
    requires m.Ok() && k !in m.at
    ensures m.Set(k, v).Values() == m.Values() + [v]
  {
    ValuesElsewhere(m.keys, m.at, k, v);
    assert (m.keys + [k])[..|m.keys|] == m.keys;
  }

  lemma SetNewOk<V>(m: JsMap<V>, k: string, v: V)
    requires m.Ok() && k !in m.at
    ensures m.Set(k, v).Ok()
  {}

  function Key(e: Event): string {
    e.network + ":" + e.contractId + ":" + Decimal(e.ledger) + ":" + Decimal(e.eventIndex)
  }

  function Index(e: Event): Indexed {
    Indexed(e.network, e.contractId, e.ledger, e.eventIndex, e.eventType,
            e.data.entityId, e.data.credentialId, e.data.subjectId, e.data.issuerId, e.data.eventId, e.data)
  }

  function OrStar(id: Option<string>): string {
    if id.Some? then id.value else "*"
  }

  function ProjectionKey(x: Indexed): string {
    OrStar(x.subjectId) + "|" + OrStar(x.eventEntityId)
  }

  // ----- what each call computes -----

  /** The first event under a key stays. */
  function IngestAll(raw: JsMap<Event>, events: seq<Event>): JsMap<Event> {
    if events == [] then raw
    else
      var before, e := IngestAll(raw, events[..|events| - 1]), events[|events| - 1];
      if Key(e) in before.at then before else before.Set(Key(e), e)
  }

  predicate From(e: Event, network: string, contractId: string) {
    e.network == network && e.contractId == contractId
  }

  /** The raw events of the contract under `keys` that are not indexed yet, indexed in that order. */
  function IndexAll(raw: JsMap<Event>, keys: seq<string>, indexed: JsMap<Indexed>, network: string,
                    contractId: string): JsMap<Indexed>
  {
    if keys == [] then indexed
    else
      var before, k := IndexAll(raw, keys[..|keys| - 1], indexed, network, contractId), keys[|keys| - 1];
      if k in raw.at && From(raw.at[k], network, contractId) && k !in before.at
        then before.Set(k, Index(raw.at[k])) else before
  }

  function Project(projections: map<string, seq<Indexed>>, x: Indexed): map<string, seq<Indexed>> {
    var k := ProjectionKey(x);
    projections[k := (if k in projections then projections[k] else []) + [x]]
  }

  function ProjectAll(projections: map<string, seq<Indexed>>, xs: seq<Indexed>): map<string, seq<Indexed>> {
    if xs == [] then projections else Project(ProjectAll(projections, xs[..|xs| - 1]), xs[|xs| - 1])
  }

  /** The indexed events under a projection key, in the order they were processed. */
  function Select(xs: seq<Indexed>, k: string): seq<Indexed> {
    if xs == [] then [] else Select(xs[..|xs| - 1], k) + if ProjectionKey(xs[|xs| - 1]) == k then [xs[|xs| - 1]] else []
  }

  lemma {:induction false} ProjectAllConcat(p: map<string, seq<Indexed>>, xs: seq<Indexed>, ys: seq<Indexed>)
    ensures ProjectAll(ProjectAll(p, xs), ys) == ProjectAll(p, xs + ys)
    decreases |ys|
  {
    hide Project;
    if ys == [] {
      assert xs + ys == xs;
    } else {
      ProjectAllConcat(p, xs, ys[..|ys| - 1]);
      assert (xs + ys)[..|xs + ys| - 1] == xs + ys[..|ys| - 1];
    }
  }

  /** Each projection is the subsequence of the processed events with its key, and there are no others. */
  lemma {:induction false} ProjectionIsASelection(xs: seq<Indexed>, k: string)
    ensures var p := ProjectAll(map[], xs);
            if k in p then p[k] == Select(xs, k) != [] else Select(xs, k) == []
    decreases |xs|
  {
    hide ProjectionKey;
    if xs != [] {
      ProjectionIsASelection(xs[..|xs| - 1], k);
    }
  }

  class InMemoryIndexer {
    var raw: JsMap<Event>
    var indexed: JsMap<Indexed>
    var projections: map<string, seq<Indexed>>

    /** Keys are the events' own, what is indexed was ingested, and the projections are those of the indexed events. */
    ghost predicate Valid()
      reads this
    {
      && StateOk(State(raw, indexed, projections))
      && projections == ProjectAll(map[], indexed.Values())
    }

    function Now(): State
      reads this
    {
      State(raw, indexed, projections)
    }

    constructor ()
      ensures Valid() && Now() == Run([])
    {
      raw, indexed, projections := JsMap([], map[]), JsMap([], map[]), map[];
    }

    method Ingest(events: seq<Event>) returns (inserted: nat, deduplicated: nat)
      requires Valid()
      modifies this`raw
      ensures Valid() && Now() == Step(old(Now()), Op.Ingest(events))
      ensures inserted + deduplicated == |events| && |raw.keys| == |old(raw).keys| + inserted
    {
      hide Key;
      inserted, deduplicated := 0, 0;
      for i := 0 to |events|
        invariant StateOk(State(raw, indexed, projections)) && raw == IngestAll(old(raw), events[..i])
        invariant inserted + deduplicated == i && |raw.keys| == |old(raw).keys| + inserted
      {
        assert events[..i + 1][..i] == events[..i];
        var key := Key(events[i]);
        if key in raw.at {
          deduplicated := deduplicated + 1;
          continue;
        }
        RawGrows(State(raw, indexed, projections), events[i]);
        raw := raw.Set(key, events[i]);
        inserted := inserted + 1;
      }
      assert events[..|events|] == events;
    }

    /** The first loop: index what is new, in the order it was ingested. */
    method IndexNew(network: string, contractId: string) returns (processed: seq<Indexed>)
      requires Valid()
      modifies this`indexed
      ensures StateOk(State(raw, indexed, projections))
              && indexed == IndexAll(raw, raw.keys, old(indexed), network, contractId)
      ensures indexed.Values() == old(indexed).Values() + processed
              && |indexed.keys| == |old(indexed).keys| + |processed|
    {
      hide Index, Key, ProjectAll, ValuesAt, StateOk, IndexAll;
      StateFacts(State(raw, indexed, projections));
      NothingIndexed(raw, indexed, network, contractId);
      processed := [];
      for i := 0 to |raw.keys|
        invariant StateOk(State(raw, indexed, projections))
                  && indexed == IndexAll(raw, raw.keys[..i], old(indexed), network, contractId)
        invariant indexed.Values() == old(indexed).Values() + processed
                  && |indexed.keys| == |old(indexed).keys| + |processed|
      {
        IndexOneMore(raw, raw.keys, i, old(indexed), network, contractId);
        var key := raw.keys[i];
        var event := raw.at[key];
        if event.network != network || event.contractId != contractId { continue; }
        if key in indexed.at { continue; }
        IndexedGrows(State(raw, indexed, projections), key);
        indexed := indexed.Set(key, Index(event));
        processed := processed + [Index(event)];
      }
      assert raw.keys[..|raw.keys|] == raw.keys;
    }

    method ProcessUnprocessed(network: string, contractId: string) returns (n: nat)
      requires Valid()
      modifies this`indexed, this`projections
      ensures Valid() && Now() == Step(old(Now()), Process(network, contractId))
      ensures |indexed.keys| == |old(indexed).keys| + n
    {
      hide Key, Index, Project, ProjectAll, ProjectionKey, IndexAll, ValuesAt;
      var processed := IndexNew(network, contractId);
      ghost var start, done := projections, indexed;
      NothingProjected(start);
      assert processed[..0] == [];
      for i := 0 to |processed|
        invariant indexed == done && projections == ProjectAll(start, processed[..i])
      {
        ProjectOneMore(start, processed, i);
        projections := Project(projections, processed[i]);
      }
      assert processed[..|processed|] == processed;
      ProjectAllConcat(map[], old(indexed.Values()), processed);
      assert indexed.Values()[|old(indexed.Values())|..] == processed;
      return |processed|;
    }

    /** Recomputes every projection from the indexed events, and finds what was there. */
    method RebuildProjections()
      requires Valid()
      modifies this`projections
      ensures Valid() && Now() == Step(old(Now()), Rebuild) == old(Now())
    {
      hide Project, ProjectionKey, ProjectAll;
      var xs := indexed.Values();
      projections := map[];
      NothingProjected(map[]);
      assert xs[..0] == [];
      for i := 0 to |xs|
        invariant projections == ProjectAll(map[], xs[..i])
      {
        ProjectOneMore(map[], xs, i);
        projections := Project(projections, xs[i]);
      }
      assert xs[..|xs|] == xs;
    }

    method GetPassport(subjectId: string, eventId: string) returns (r: seq<Indexed>)
      requires Valid()
      ensures r == Select(indexed.Values(), subjectId + "|" + eventId)
    {
      var key := subjectId + "|" + eventId;
      ProjectionIsASelection(indexed.Values(), key);
      if key in projections { return projections[key]; }
      return [];
    }
  }

  lemma IndexOneMore(raw: JsMap<Event>, keys: seq<string>, i: nat, indexed: JsMap<Indexed>, n: string, c: string)
    requires i < |keys| && forall k :: k in keys ==> k in raw.at
    ensures keys[i] in raw.at
    ensures var before := IndexAll(raw, keys[..i], indexed, n, c);
            IndexAll(raw, keys[..i + 1], indexed, n, c)
            == if From(raw.at[keys[i]], n, c) && keys[i] !in before.at
               then before.Set(keys[i], Index(raw.at[keys[i]])) else before
  {
    assert keys[..i + 1][..i] == keys[..i];
  }

  lemma NothingIndexed(raw: JsMap<Event>, indexed: JsMap<Indexed>, n: string, c: string)
    ensures IndexAll(raw, raw.keys[..0], indexed, n, c) == indexed
  {}

  lemma NothingProjected(p: map<string, seq<Indexed>>)
    ensures ProjectAll(p, []) == p
  {}

  lemma ProjectOneMore(p: map<string, seq<Indexed>>, xs: seq<Indexed>, i: nat)
    requires i < |xs|
    ensures ProjectAll(p, xs[..i + 1]) == Project(ProjectAll(p, xs[..i]), xs[i])
  {
    hide Project;
    assert xs[..i + 1][..i] == xs[..i];
  }

  // ----- whole runs -----

  datatype State = State(raw: JsMap<Event>, indexed: JsMap<Indexed>, projections: map<string, seq<Indexed>>)

  datatype Op = Ingest(events: seq<Event>) | Process(network: string, contractId: string) | Rebuild

  ghost predicate OwnKeys(raw: map<string, Event>) {
    forall k :: k in raw ==> Key(raw[k]) == k
  }

  ghost predicate Sourced(raw: map<string, Event>, indexed: map<string, Indexed>) {
    forall k :: k in indexed ==> k in raw && indexed[k] == Index(raw[k])
  }

  ghost predicate StateOk(s: State) {
    s.raw.Ok() && s.indexed.Ok() && OwnKeys(s.raw.at) && Sourced(s.raw.at, s.indexed.at)
  }

  lemma RawGrows(s: State, e: Event)
    requires StateOk(s) && Key(e) !in s.raw.at
    ensures StateOk(s.(raw := s.raw.Set(Key(e), e)))
  {}

  lemma IndexedGrows(s: State, k: string)
    requires StateOk(s) && k in s.raw.at && k !in s.indexed.at
    ensures StateOk(s.(indexed := s.indexed.Set(k, Index(s.raw.at[k]))))
    ensures s.indexed.Set(k, Index(s.raw.at[k])).Values() == s.indexed.Values() + [Index(s.raw.at[k])]
  {
    hide Key, Index;
    SetNewOk(s.indexed, k, Index(s.raw.at[k]));
    SetNewValue(s.indexed, k, Index(s.raw.at[k]));
  }

  lemma StateFacts(s: State)
    requires StateOk(s)
    ensures (forall k :: k in s.raw.keys <==> k in s.raw.at) && OwnKeys(s.raw.at)
  {}

  /** Indexing appends to what is indexed. */
  lemma {:induction false} IndexAllAppends(s: State, keys: seq<string>, n: string, c: string)
    requires StateOk(s) && forall k :: k in keys ==> k in s.raw.at
    ensures StateOk(s.(indexed := IndexAll(s.raw, keys, s.indexed, n, c)))
    ensures s.indexed.Values() <= IndexAll(s.raw, keys, s.indexed, n, c).Values()
    decreases |keys|
  {
    hide Key, Index, From;
    if keys != [] {
      var rest, k := keys[..|keys| - 1], keys[|keys| - 1];
      assert keys == rest + [k];
      IndexAllAppends(s, rest, n, c);
      var s' := s.(indexed := IndexAll(s.raw, rest, s.indexed, n, c));
      if From(s.raw.at[k], n, c) && k !in s'.indexed.at { IndexedGrows(s', k); }
    }
  }

  ghost function Step(s: State, op: Op): State
    requires StateOk(s)
  {
    match op
    case Ingest(events) => s.(raw := IngestAll(s.raw, events))
    case Process(n, c) =>
      var indexed := IndexAll(s.raw, s.raw.keys, s.indexed, n, c);
      IndexAllAppends(s, s.raw.keys, n, c);
      s.(indexed := indexed, projections := ProjectAll(s.projections, indexed.Values()[|s.indexed.Values()|..]))
    case Rebuild => s.(projections := ProjectAll(map[], s.indexed.Values()))
  }

  lemma {:induction false} IngestKeeps(s: State, events: seq<Event>)
    requires StateOk(s)
    ensures StateOk(s.(raw := IngestAll(s.raw, events)))
    ensures forall k :: k in s.raw.at ==>
            k in IngestAll(s.raw, events).at && IngestAll(s.raw, events).at[k] == s.raw.at[k]
    decreases |events|
  {
    hide Key;
    if events != [] {
      var before, e := events[..|events| - 1], events[|events| - 1];
      IngestKeeps(s, before);
      var s' := s.(raw := IngestAll(s.raw, before));
      if Key(e) !in s'.raw.at { RawGrows(s', e); }
    }
  }

  /** Indexing a contract's events leaves none of its own out, and touches no other contract's. */
  lemma {:induction false} ProcessIndexes(s: State, keys: seq<string>, n: string, c: string)
    requires StateOk(s) && forall k :: k in keys ==> k in s.raw.at
    ensures var r := IndexAll(s.raw, keys, s.indexed, n, c);
            && StateOk(s.(indexed := r))
            && forall k :: k in r.at <==> k in s.indexed.at || (k in keys && From(s.raw.at[k], n, c))
    decreases |keys|
  {
    hide Key, Index, From;
    if keys != [] {
      var rest, k := keys[..|keys| - 1], keys[|keys| - 1];
      assert keys == rest + [k];
      ProcessIndexes(s, rest, n, c);
      var s' := s.(indexed := IndexAll(s.raw, rest, s.indexed, n, c));
      if From(s.raw.at[k], n, c) && k !in s'.indexed.at { IndexedGrows(s', k); }
    }
  }

  lemma StepKeeps(s: State, op: Op)
    requires StateOk(s)
    ensures StateOk(Step(s, op))
  {
    match op
    case Ingest(events) => IngestKeeps(s, events);
    case Process(n, c) => ProcessIndexes(s, s.raw.keys, n, c);
    case Rebuild =>
  }

  ghost function Run(ops: seq<Op>): (s: State)
    ensures StateOk(s)
  {
    if ops == [] then State(JsMap([], map[]), JsMap([], map[]), map[])
    else
      var before := Run(ops[..|ops| - 1]);
      StepKeeps(before, ops[|ops| - 1]);
      Step(before, ops[|ops| - 1])
  }

  /** In every state of a run the projections are those of the indexed events. */
  lemma {:induction false} RunProjects(ops: seq<Op>)
    ensures Run(ops).projections == ProjectAll(map[], Run(ops).indexed.Values())
    decreases |ops|
  {
    hide StateOk, ProjectAll, IndexAll, IngestAll;
    if ops == [] {
      NothingProjected(map[]);
    } else {
      var before, op := Run(ops[..|ops| - 1]), ops[|ops| - 1];
      RunProjects(ops[..|ops| - 1]);
      if op.Process? { ProcessProjects(before, op.network, op.contractId); }
    }
  }

  lemma ProcessProjects(s: State, n: string, c: string)
    requires StateOk(s) && s.projections == ProjectAll(map[], s.indexed.Values())
    ensures var t := Step(s, Process(n, c)); t.projections == ProjectAll(map[], t.indexed.Values())
  {
    hide ProjectAll, IndexAll;
    StateFacts(s);
    IndexAllAppends(s, s.raw.keys, n, c);
    var old', new' := s.indexed.Values(), IndexAll(s.raw, s.raw.keys, s.indexed, n, c).Values();
    ProjectAllConcat(map[], old', new'[|old'|..]);
    assert old' + new'[|old'|..] == new';
  }

  /** Rebuilding changes nothing, whenever it happens. */
  lemma RebuildChangesNothing(ops: seq<Op>)
    ensures Run(ops + [Rebuild]) == Run(ops)
  {
    hide StateOk, ProjectAll;
    assert (ops + [Rebuild])[..|ops|] == ops;
    RunProjects(ops);
  }

  function Elements(events: seq<Event>): set<Event> {
    set e | e in events
  }

  /** Everything a run was given to ingest. */
  function Given(ops: seq<Op>): set<Event> {
    if ops == [] then {}
    else Given(ops[..|ops| - 1]) + if ops[|ops| - 1].Ingest? then Elements(ops[|ops| - 1].events) else {}
  }

  ghost predicate KeyDetermines(es: set<Event>) {
    forall a, b :: a in es && b in es && Key(a) == Key(b) ==> a == b
  }

  predicate Holds(raw: JsMap<Event>, e: Event) {
    Key(e) in raw.at && raw.at[Key(e)] == e
  }

  lemma HoldsOneMore(raw: JsMap<Event>, e: Event)
    requires Key(e) !in raw.at && OwnKeys(raw.at)
    ensures var r := raw.Set(Key(e), e);
            (forall x :: Holds(r, x) <==> Holds(raw, x) || x == e) && OwnKeys(r.at)
  {}

  lemma HoldsAlready(raw: JsMap<Event>, es: set<Event>, e: Event)
    requires (forall x :: Holds(raw, x) <==> x in es) && OwnKeys(raw.at)
    requires KeyDetermines(es + {e}) && Key(e) in raw.at
    ensures e in es
  {}

  lemma {:induction false} IngestHolds(raw: JsMap<Event>, es: set<Event>, events: seq<Event>)
    requires (forall e :: Holds(raw, e) <==> e in es) && OwnKeys(raw.at)
    requires KeyDetermines(es + Elements(events))
    ensures var r := IngestAll(raw, events);
            (forall e :: Holds(r, e) <==> e in es + Elements(events)) && OwnKeys(r.at)
    decreases |events|
  {
    hide Key, Holds;
    if events == [] {
      assert es + Elements(events) == es;
    } else {
      var before, x := events[..|events| - 1], events[|events| - 1];
      assert events == before + [x];
      var sofar := es + Elements(before);
      assert es + Elements(events) == sofar + {x};
      IngestHolds(raw, es, before);
      var r := IngestAll(raw, before);
      if Key(x) in r.at {
        HoldsAlready(r, sofar, x);
      } else {
        HoldsOneMore(r, x);
      }
    }
  }

  lemma {:induction false} RunHoldsWhatItWasGiven(ops: seq<Op>)
    requires KeyDetermines(Given(ops))
    ensures forall e :: Holds(Run(ops).raw, e) <==> e in Given(ops)
    decreases |ops|
  {
    hide Key, StateOk;
    if ops != [] {
      var before, op := ops[..|ops| - 1], ops[|ops| - 1];
      RunHoldsWhatItWasGiven(before);
      if op.Ingest? {
        StateFacts(Run(before));
        IngestHolds(Run(before).raw, Given(before), op.events);
      }
    }
  }

  // ----- the projected events depend on the events alone -----

  /** What getPassport reads. */
  function Passport(s: State, k: string): seq<Indexed> {
    if k in s.projections then s.projections[k] else []
  }

  /** The events of one contract among `xs`. */
  function OfContract(xs: seq<Indexed>, n: string, c: string): seq<Indexed> {
    if xs == [] then []
    else
      var x := xs[|xs| - 1];
      OfContract(xs[..|xs| - 1], n, c) + if x.network == n && x.contractId == c then [x] else []
  }

  lemma {:induction false} SelectCounts(xs: seq<Indexed>, k: string, x: Indexed)
    ensures multiset(Select(xs, k))[x] == if ProjectionKey(x) == k then multiset(xs)[x] else 0
    decreases |xs|
  {
    hide ProjectionKey;
    if xs != [] {
      SelectCounts(xs[..|xs| - 1], k, x);
      assert xs == xs[..|xs| - 1] + [xs[|xs| - 1]];
    }
  }

  lemma {:induction false} OfContractCounts(xs: seq<Indexed>, n: string, c: string, x: Indexed)
    ensures multiset(OfContract(xs, n, c))[x] == if x.network == n && x.contractId == c then multiset(xs)[x] else 0
    decreases |xs|
  {
    if xs != [] {
      OfContractCounts(xs[..|xs| - 1], n, c, x);
      assert xs == xs[..|xs| - 1] + [xs[|xs| - 1]];
    }
  }

  lemma PassportCounts(ops: seq<Op>, k: string, x: Indexed)
    ensures multiset(Passport(Run(ops), k))[x] == if ProjectionKey(x) == k then multiset(Run(ops).indexed.Values())[x]
            else 0
  {
    hide ProjectionKey, Run, Select, ProjectAll;
    RunProjects(ops);
    ProjectionIsASelection(Run(ops).indexed.Values(), k);
    SelectCounts(Run(ops).indexed.Values(), k, x);
  }

  /** The raw event behind an indexed one. */
  function Source(x: Indexed): Event {
    Event(x.network, x.contractId, x.ledger, x.eventIndex, x.eventType, x.data)
  }

  lemma {:induction false} ValuesCount(keys: seq<string>, at: map<string, Indexed>, x: Indexed)
    requires (forall k :: k in keys ==> k in at && Key(Source(at[k])) == k)
    requires forall i, j :: 0 <= i < j < |keys| ==> keys[i] != keys[j]
    ensures multiset(ValuesAt(keys, at))[x] == if Key(Source(x)) in keys && at[Key(Source(x))] == x then 1 else 0
    decreases |keys|
  {
    hide Key, Source;
    if keys != [] {
      var rest, k := keys[..|keys| - 1], keys[|keys| - 1];
      assert keys == rest + [k];
      ValuesCount(rest, at, x);
      assert ValuesAt(keys, at) == ValuesAt(rest, at) + [at[k]];
      assert forall y :: y in keys <==> y in rest || y == k;
    }
  }

  /** All of a contract's ingested events are processed. */
  ghost predicate Drained(s: State, n: string, c: string) {
    forall k :: k in s.raw.at && From(s.raw.at[k], n, c) ==> k in s.indexed.at
  }

  /** Processing a contract leaves none of its events out. */
  lemma ProcessDrains(ops: seq<Op>, n: string, c: string)
    ensures Drained(Run(ops + [Process(n, c)]), n, c)
  {
    hide Key, Index, ProjectAll;
    assert (ops + [Process(n, c)])[..|ops|] == ops;
    StateFacts(Run(ops));
    ProcessIndexes(Run(ops), Run(ops).raw.keys, n, c);
  }

  /** Once a contract is processed, its indexed events are those it was given, each once. */
  lemma IndexedExactlyOnce(ops: seq<Op>, x: Indexed)
    requires KeyDetermines(Given(ops)) && Drained(Run(ops), x.network, x.contractId)
    ensures multiset(Run(ops).indexed.Values())[x] == if x == Index(Source(x)) && Source(x) in Given(ops) then 1 else 0
  {
    hide Key, Run;
    var s := Run(ops);
    RunHoldsWhatItWasGiven(ops);
    var k := Key(Source(x));
    ValuesCount(s.indexed.keys, s.indexed.at, x);
    assert Holds(s.raw, Source(x)) <==> Source(x) in Given(ops);
    if k in s.indexed.at && s.indexed.at[k] == x {
      assert x == Index(s.raw.at[k]);
    }
  }

  /**
   * Two runs that were given the same events, however batched, repeated or interleaved with processing and
   * rebuilding, show the same multiset of a contract's events in every passport once both have processed it.
   */
  lemma ProjectionsDependOnTheEvents(a: seq<Op>, b: seq<Op>, n: string, c: string, k: string)
    requires Given(a) == Given(b) && KeyDetermines(Given(a)) && Drained(Run(a), n, c) && Drained(Run(b), n, c)
    ensures multiset(OfContract(Passport(Run(a), k), n, c)) == multiset(OfContract(Passport(Run(b), k), n, c))
  {
    hide ProjectionKey, Key, Run, Drained, OfContract, Passport;
    var xs, ys := Passport(Run(a), k), Passport(Run(b), k);
    forall x: Indexed ensures multiset(OfContract(xs, n, c))[x] == multiset(OfContract(ys, n, c))[x] {
      OfContractCounts(xs, n, c, x);
      OfContractCounts(ys, n, c, x);
      PassportCounts(a, k, x);
      PassportCounts(b, k, x);
      if x.network == n && x.contractId == c {
        IndexedExactlyOnce(a, x);
        IndexedExactlyOnce(b, x);
      }
    }
  }

  /** With every contract processed, whole passports agree. */
  lemma PassportsDependOnTheEvents(a: seq<Op>, b: seq<Op>, k: string)
    requires Given(a) == Given(b) && KeyDetermines(Given(a))
    requires forall n, c :: Drained(Run(a), n, c) && Drained(Run(b), n, c)
    ensures multiset(Passport(Run(a), k)) == multiset(Passport(Run(b), k))
  {
    hide ProjectionKey, Key, Run, Drained, Passport;
    forall x: Indexed ensures multiset(Passport(Run(a), k))[x] == multiset(Passport(Run(b), k))[x] {
      PassportCounts(a, k, x);
      PassportCounts(b, k, x);
      assert Drained(Run(a), x.network, x.contractId) && Drained(Run(b), x.network, x.contractId);
      IndexedExactlyOnce(a, x);
      IndexedExactlyOnce(b, x);
    }
  }

  /**
   * For ids without the separator, an event is filed in a passport exactly when it is of that subject and that event.
   */
  lemma PassportExactlyWhen(e: Event, subjectId: string, eventId: string)
    requires '|' !in subjectId && '|' !in OrStar(e.data.subjectId) && subjectId != "*" && eventId != "*"
    ensures ProjectionKey(Index(e)) == subjectId + "|" + eventId
            <==> e.data.subjectId == Some(subjectId) && e.data.eventId == Some(eventId)
    ensures Source(Index(e)) == e
  {
    var x := Index(e);
    if ProjectionKey(x) == subjectId + "|" + eventId {
      SplitAtSeparator(OrStar(x.subjectId), OrStar(x.eventEntityId), '|', subjectId, eventId);
    }
  }

  // ----- what a key and an indexed event say -----

  /** For networks and contracts free of ':', a key is one event's place: network, contract, ledger and index. */
  lemma KeysTellPlacesApart(a: Event, b: Event)
    requires ':' !in a.network && ':' !in a.contractId && ':' !in b.network && ':' !in b.contractId
    ensures Key(a) == Key(b)
            <==> a.network == b.network && a.contractId == b.contractId && a.ledger == b.ledger
                 && a.eventIndex == b.eventIndex
  {
    hide Decimal;
    if Key(a) == Key(b) {
      var third := Decimal(a.ledger) + [':'] + Decimal(a.eventIndex);
      var third' := Decimal(b.ledger) + [':'] + Decimal(b.eventIndex);
      var second, second' := a.contractId + [':'] + third, b.contractId + [':'] + third';
      assert Key(a) == a.network + [':'] + second && Key(b) == b.network + [':'] + second';
      SplitAtSeparator(a.network, second, ':', b.network, second');
      SplitAtSeparator(a.contractId, third, ':', b.contractId, third');
      NoColon(a.ledger);
      NoColon(b.ledger);
      SplitAtSeparator(Decimal(a.ledger), Decimal(a.eventIndex), ':', Decimal(b.ledger), Decimal(b.eventIndex));
      DecimalIsInjective(a.ledger, b.ledger);
      DecimalIsInjective(a.eventIndex, b.eventIndex);
    }
  }

  lemma NoColon(n: nat)
    ensures ':' !in Decimal(n)
  {
    DecimalHasDigitsOnly(n);
  }

  /** An indexed event says of itself what the event it came from says. */
  ghost predicate SaysTheSame(x: Indexed, e: Event) {
    && x.network == e.network && x.contractId == e.contractId && x.ledger == e.ledger && x.eventIndex == e.eventIndex
    && x.eventType == e.eventType && x.data == e.data
    && x.entityId == e.data.entityId && x.credentialId == e.data.credentialId && x.issuerId == e.data.issuerId
    && x.subjectId == e.data.subjectId && x.eventEntityId == e.data.eventId
  }

  /** In every run, what is indexed says the same as an event that was given. */
  lemma IndexedSaysWhatWasGiven(ops: seq<Op>, k: string)
    requires k in Run(ops).indexed.at
    ensures exists e :: e in Given(ops) && Key(e) == k && SaysTheSame(Run(ops).indexed.at[k], e)
  {
    hide Key;
    StateFacts(Run(ops));
    RawWasGiven(ops, k);
    assert SaysTheSame(Index(Run(ops).raw.at[k]), Run(ops).raw.at[k]);
  }

  lemma {:induction false} RawWasGiven(ops: seq<Op>, k: string)
    requires k in Run(ops).raw.at
    ensures Run(ops).raw.at[k] in Given(ops) && Key(Run(ops).raw.at[k]) == k
    decreases |ops|
  {
    hide Key, StateOk;
    if ops != [] {
      var before, op := ops[..|ops| - 1], ops[|ops| - 1];
      if k in Run(before).raw.at { RawWasGiven(before, k); }
      if op.Ingest? { IngestedWasGiven(Run(before).raw, op.events, k); }
    }
  }

  lemma {:induction false} IngestedWasGiven(raw: JsMap<Event>, events: seq<Event>, k: string)
    requires k in IngestAll(raw, events).at
    ensures var e := IngestAll(raw, events).at[k];
            (k in raw.at && e == raw.at[k]) || (e in events && Key(e) == k)
    decreases |events|
  {
    hide Key;
    if events != [] {
      var before := events[..|events| - 1];
      if k in IngestAll(raw, before).at { IngestedWasGiven(raw, before, k); }
    }
  }

  /** Processing a contract indexes its raw events, every one and no other contract's, and leaves the rest. */
  lemma ProcessIndexesExactly(ops: seq<Op>, n: string, c: string, k: string)
    ensures var s, t := Run(ops), Run(ops + [Process(n, c)]);
            && (k in t.indexed.at <==>
                k in s.indexed.at || (k in s.raw.at && s.raw.at[k].network == n && s.raw.at[k].contractId == c))
            && (k in s.indexed.at ==> t.indexed.at[k] == s.indexed.at[k])
            && t.raw == s.raw
  {
    hide StateOk, IndexAll, ProjectAll;
    var s := Run(ops);
    assert (ops + [Process(n, c)])[..|ops|] == ops;
    StateFacts(s);
    IndexesExactly(s.raw, s.raw.keys, s.indexed, n, c, k);
    KeysAreDomain(s, k);
  }

  lemma KeysAreDomain(s: State, k: string)
    requires StateOk(s)
    ensures k in s.raw.keys <==> k in s.raw.at
  {}

  lemma {:induction false} IndexesExactly(raw: JsMap<Event>, keys: seq<string>, indexed: JsMap<Indexed>, n: string,
                                          c: string, k: string)
    ensures var r := IndexAll(raw, keys, indexed, n, c);
            && (k in r.at <==>
                k in indexed.at || (k in keys && k in raw.at && raw.at[k].network == n && raw.at[k].contractId == c))
            && (k in indexed.at ==> r.at[k] == indexed.at[k])
    decreases |keys|
  {
    hide Index;
    if keys != [] {
      assert keys == keys[..|keys| - 1] + [keys[|keys| - 1]];
      IndexesExactly(raw, keys[..|keys| - 1], indexed, n, c, k);
    }
  }
}
