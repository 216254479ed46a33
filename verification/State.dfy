// The registry state: for every claim key the record with the highest generation of its
// source incarnation, a bounded ring of the records it superseded, and the catalogue of
// sources and sessions.

module State {
  import opened Words
  import opened Evidence
  import opened Ordering

  datatype Option<+T> = None | Some(value: T)

  /** Everything the registry knows about how one record was produced. */
  datatype Attestation = Attestation(
    owner: Owner, generation: U64, evidence: Id, observedAt: I64, receivedAt: I64,
    provenance: ProvenanceClass, authority: Authority, objectIncarnation: U64, inLifetime: bool)

  datatype Folded<V> = Folded(meta: Attestation, value: V, superseded: seq<Attestation>, dropped: U32)

  /** Primary key, then the key of the record inside the group. */
  type Table<P, K, V> = map<P, map<K, Folded<V>>>

  datatype SourceRecord = SourceRecord(
    descriptor: SourceDescriptor, descriptorIncarnation: U64, currentIncarnation: U64, described: bool)

  datatype SessionRecord = SessionRecord(
    openedAt: I64, highWater: U64, live: bool, closed: bool,
    accepted: U64, refused: U64, duplicates: U64, missing: U64)

  datatype SubjectValue = SubjectValue(
    objectIncarnation: U64, attached: bool, port: PortRef, slot: U32, viaMove: bool, moveFrom: PortRef)

  /** When empty holds, the slot is asserted vacant and subject names who left it. */
  datatype PortValue = PortValue(objectIncarnation: U64, empty: bool, subject: SideRef)

  datatype LifecycleValue = LifecycleValue(objectIncarnation: U64, action: LifecycleAction, reason: Text)

  datatype ReincarnationValue = ReincarnationValue(from: U64, target: U64, serial: Text, reason: Text)

  datatype RegistryState = RegistryState(
    id: Id,
    openedAt: I64,
    sources: map<Id, SourceRecord>,
    sessions: map<Owner, SessionRecord>,
    objects: Table<Id, Owner, ObjectDescriptor>,
    endpoints: Table<Id, Owner, EndpointDescriptor>,
    subjects: Table<SideRef, Owner, SubjectValue>,
    ports: Table<PortRef, SlotKey, PortValue>,
    lifecycles: Table<Id, Owner, LifecycleValue>,
    reincarnations: Table<Id, Owner, ReincarnationValue>,
    objectCapabilities: Table<Id, Owner, NominalCapability>,
    portCapabilities: Table<PortRef, Owner, PortCapability>)

  function EmptyState(id: Id, openedAt: I64): RegistryState
  {
    RegistryState(id, openedAt, map[], map[], map[], map[], map[], map[], map[], map[], map[], map[])
  }

  // ---- Tables ----

  predicate Has<P, K, V>(t: Table<P, K, V>, p: P, k: K) { p in t && k in t[p] }

  function Cell<P, K, V>(t: Table<P, K, V>, p: P, k: K): Option<Folded<V>>
  {
    if Has(t, p, k) then Some(t[p][k]) else None
  }

  function Group<P, K, V>(t: Table<P, K, V>, p: P): map<K, Folded<V>>
  {
    if p in t then t[p] else map[]
  }

  function Put<P, K, V>(t: Table<P, K, V>, p: P, k: K, f: Folded<V>): Table<P, K, V>
  {
    t[p := Group(t, p)[k := f]]
  }

  // ---- Fencing, existence, object incarnation ----

  /** A strictly higher incarnation of the same source exists. */
  predicate Fenced(s: RegistryState, o: Owner)
  {
    o.source in s.sources && s.sources[o.source].currentIncarnation > o.incarnation
  }

  predicate ObjectExists(s: RegistryState, object': Id)
  {
    object' in s.objects && s.objects[object'] != map[]
  }

  /** The targets asserted for an object by owners that still count. */
  ghost function LiveTargets(s: RegistryState, x: Id): set<int>
  {
    var group := Group(s.reincarnations, x);
    set o | o in group && !Fenced(s, o) :: group[o].value.target
  }

  /** The object's current incarnation: the highest counted target, at least one. */
  ghost function IncarnationOf(s: RegistryState, x: Id): (r: int)
    ensures r >= 1
  {
    assert 1 in {1} + LiveTargets(s, x);
    Maximum({1} + LiveTargets(s, x))
  }

  ghost function PortCounts(s: RegistryState, endpoint: Id): set<int>
  {
    var group := Group(s.endpoints, endpoint);
    set o | o in group :: group[o].value.portCount
  }

  ghost function EndpointPortCount(s: RegistryState, endpoint: Id): int
  {
    Maximum({0} + PortCounts(s, endpoint))
  }

  ghost predicate PortExists(s: RegistryState, port: PortRef)
  {
    port.index < EndpointPortCount(s, port.endpoint)
  }

  /** A port exists if and only if some registration of its endpoint reaches that far. */
  lemma PortExistsExactly(s: RegistryState, port: PortRef)
    ensures PortExists(s, port) <==>
            exists o :: Has(s.endpoints, port.endpoint, o) &&
                        port.index < s.endpoints[port.endpoint][o].value.portCount
  {
    var group := Group(s.endpoints, port.endpoint);
    var count := EndpointPortCount(s, port.endpoint);
    if PortExists(s, port) {
      assert count in PortCounts(s, port.endpoint);
      var o :| o in group && group[o].value.portCount == count;
      assert Has(s.endpoints, port.endpoint, o);
    }
    if o :| Has(s.endpoints, port.endpoint, o) && port.index < s.endpoints[port.endpoint][o].value.portCount {
      assert o in group && group[o].value.portCount in PortCounts(s, port.endpoint);
      assert group[o].value.portCount in {0} + PortCounts(s, port.endpoint);
    }
  }

  // ---- What belongs to this process rather than to the evidence ----

  function ClearMeta(m: Attestation): Attestation { m.(inLifetime := false) }

  function ClearRing(ring: seq<Attestation>): (r: seq<Attestation>)
    ensures |r| == |ring|
    ensures forall i :: 0 <= i < |ring| ==> r[i] == ClearMeta(ring[i])
  {
    seq(|ring|, i requires 0 <= i < |ring| => ClearMeta(ring[i]))
  }

  function ClearFolded<V>(f: Folded<V>): Folded<V>
  {
    f.(meta := ClearMeta(f.meta), superseded := ClearRing(f.superseded))
  }

  function ClearGroup<K, V>(g: map<K, Folded<V>>): map<K, Folded<V>>
  {
    map k | k in g :: ClearFolded(g[k])
  }

  function ClearTable<P, K, V>(t: Table<P, K, V>): Table<P, K, V>
  {
    map p | p in t :: ClearGroup(t[p])
  }

  function ClearSessions(sessions: map<Owner, SessionRecord>): map<Owner, SessionRecord>
  {
    map o | o in sessions :: sessions[o].(live := false)
  }

  /** clear_volatile: a recovered store never claims that its records are fresh. */
  function ClearVolatile(s: RegistryState): RegistryState
  {
    s.(sessions := ClearSessions(s.sessions),
    objects := ClearTable(s.objects),
    endpoints := ClearTable(s.endpoints),
    subjects := ClearTable(s.subjects),
    ports := ClearTable(s.ports),
    lifecycles := ClearTable(s.lifecycles),
    reincarnations := ClearTable(s.reincarnations),
    objectCapabilities := ClearTable(s.objectCapabilities),
    portCapabilities := ClearTable(s.portCapabilities))
  }
}
