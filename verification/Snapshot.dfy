// The topology snapshot, and why it is a function of the evidence alone: receive times,
// lifetime flags, ring overflow counts and session bookkeeping never reach it.

// Sums over claim keys.
module Census {
  import opened Keys

  ghost function Total(keys: set<Key>, weight: Key -> nat): nat
    decreases |keys|
  {
    if keys == {} then 0
    else
      var k :| k in keys;
      weight(k) + Total(keys - {k}, weight)
  }

  lemma {:induction false} TotalSame(keys: set<Key>, v: Key -> nat, w: Key -> nat)
    requires forall k :: k in keys ==> v(k) == w(k)
    ensures Total(keys, v) == Total(keys, w)
    decreases |keys|
  {
    if keys != {} {
      var k :| k in keys && Total(keys, v) == v(k) + Total(keys - {k}, v)
        && Total(keys, w) == w(k) + Total(keys - {k}, w);
      TotalSame(keys - {k}, v, w);
    }
  }
}

module Snapshot {
  import opened Words
  import opened Evidence
  import opened Ordering
  import opened State
  import opened Lifecycle
  import opened Ingest
  import opened Keys
  import opened Census
  import opened Derive
  import opened Objects
  import opened Congruence

  // ---- The snapshot ----

  /** A cited claim: no receive time, no lifetime flag. */
  datatype SnapClaim = SnapClaim(
    owner: Owner, generation: U64, evidence: Id, observedAt: I64, provenance: ProvenanceClass, authority: Authority)

  datatype SnapEdge = SnapEdge(
    subject: SideRef, port: PortRef, slot: U32, incarnation: int, authority: Authority,
    connectorCompatible: bool, mediaCompatible: bool, conflicting: bool, claims: seq<SnapClaim>)

  datatype SnapNote = SnapNote(reason: Reason, subject: Option<SideRef>, port: Option<PortRef>, claims: seq<SnapClaim>)

  datatype SnapPort = SnapPort(port: PortRef, state: PortState, capability: PortCapability, attachments: seq<SnapEdge>,
    conflicts: seq<SnapNote>)

  /** The number of conflicts is what the object adds to the summary; the original keeps their sum only. */
  datatype SnapObject = SnapObject(
    id: Id, kind: ObjectKind, physicalLabel: Text, serial: Text, location: Text, incarnation: int,
    lifecycle: LifecycleState, capability: NominalCapability, sides: seq<SideDescriptor>, attachments: seq<SnapEdge>,
      conflicts: nat)

  datatype SnapSession = SnapSession(owner: Owner, fencedBy: U64, claims: nat)
  datatype SnapFenced = SnapFenced(target: Id, incarnation: int, claims: nat)

  datatype Snapshot = Snapshot(
    objects: seq<Option<SnapObject>>, endpoints: seq<Option<EndpointDescriptor>>, ports: seq<SnapPort>,
    sessions: seq<SnapSession>, fencedObjects: seq<SnapFenced>, claimsFenced: nat, claimsPending: nat)

  function CiteClaim(m: Attestation): SnapClaim
  {
    SnapClaim(m.owner, m.generation, m.evidence, m.observedAt, m.provenance, m.authority)
  }

  function CiteClaims(ms: seq<Attestation>): (r: seq<SnapClaim>)
    ensures |r| == |ms|
  {
    seq(|ms|, i requires 0 <= i < |ms| => CiteClaim(ms[i]))
  }

  function SnapEdgeOf(e: Edge): SnapEdge
  {
    SnapEdge(e.subject, e.port, e.slot, e.incarnation, e.authority, e.connectorCompatible, e.mediaCompatible,
      e.conflicting, CiteClaims(e.claims))
  }

  function SnapEdgesOf(es: seq<Edge>): (r: seq<SnapEdge>)
    ensures |r| == |es|
  {
    seq(|es|, i requires 0 <= i < |es| => SnapEdgeOf(es[i]))
  }

  function SnapNoteOf(n: Note): SnapNote { SnapNote(n.reason, n.subject, n.port, CiteClaims(n.claims)) }

  function SnapNotesOf(ns: seq<Note>): (r: seq<SnapNote>)
    ensures |r| == |ns|
  {
    seq(|ns|, i requires 0 <= i < |ns| => SnapNoteOf(ns[i]))
  }

  function SnapPortOf(v: PortView): SnapPort
  {
    SnapPort(v.port, v.state, v.capability, SnapEdgesOf(v.edges), SnapNotesOf(v.conflicts))
  }

  function AttachmentRank(e: SnapEdge): int { PortRank(e.port) * (TWO_128 * TWO_32) + SideRank(e.subject) }

  function Attachments(sides: seq<SideView>): seq<SnapEdge>
  {
    if sides == [] then [] else SnapEdgesOf(sides[0].edges) + Attachments(sides[1..])
  }

  function Descriptors(sides: seq<SideView>): (r: seq<SideDescriptor>)
    ensures |r| == |sides|
  {
    seq(|sides|, i requires 0 <= i < |sides| => sides[i].descriptor)
  }

  function SnapObjectOf(v: Option<ObjectView>): Option<SnapObject>
  {
    if v.None? then None
    else
      Some(SnapObject(v.value.id, v.value.kind, v.value.physicalLabel, v.value.serial, v.value.location,
        v.value.incarnation,
                      v.value.lifecycle, v.value.capability, Descriptors(v.value.sides),
                      SortBy(Attachments(v.value.sides), AttachmentRank), |v.value.conflicts|))
  }

  // ---- Counts of fenced and pending claims ----

  ghost function TableKeys<P(!new), K(!new), V>(t: Table<P, K, V>, key: (P, K) -> Key): set<Key>
  {
    set p, k | p in t && k in t[p] :: key(p, k)
  }

  ghost function KeysOf(s: RegistryState): set<Key>
  {
    TableKeys(s.objects, (x, o) => ObjectKey(x, o)) + TableKeys(s.endpoints, (x, o) => EndpointKey(x, o)) +
    TableKeys(s.subjects, (x, o) => SubjectKey(x, o)) + TableKeys(s.ports, (p, k) => PortKey(k)) +
    TableKeys(s.lifecycles, (x, o) => LifecycleKey(x, o)) +
      TableKeys(s.reincarnations, (x, o) => ReincarnationKey(x, o)) +
    TableKeys(s.objectCapabilities, (x, o) => ObjectCapabilityKey(x, o)) +
    TableKeys(s.portCapabilities, (x, o) => PortCapabilityKey(x, o))
  }

  /** The object a placement or lifecycle claim is about, and the incarnation it was made against. */
  function Binding(c: Claim): Option<(Id, U64)>
  {
    match c
    case SubjectClaim(side, v) => Some((side.objectId, v.objectIncarnation))
    case PortClaim(_, v) => Some((v.subject.objectId, v.objectIncarnation))
    case LifecycleClaim(x, v) => Some((x, v.objectIncarnation))
    case _ => None
  }

  /** A record counts with the records it superseded. */
  function Size(f: Folded<Claim>): nat { 1 + |f.superseded| }

  function Registration(k: Key): bool { k.ObjectKey? || k.EndpointKey? }

  function SessionWeight(s: RegistryState, o: Owner, k: Key): nat
  {
    var f := At(s, k);
    if f.Some? && KeyOwner(k) == o && !Registration(k) then Size(f.value) else 0
  }

  ghost function ObjectWeight(s: RegistryState, x: Id, k: Key): nat
  {
    var f := At(s, k);
    if f.None? then 0
    else
      var b := Binding(f.value.value);
      if b.Some? && b.value.0 == x && b.value.1 != IncarnationOf(s, x) then Size(f.value) else 0
  }

  ghost function FencedWeight(s: RegistryState, k: Key): nat
  {
    var f := At(s, k);
    if f.None? || Registration(k) || k.ReincarnationKey? then 0
    else
      var b := Binding(f.value.value);
      if Fenced(s, KeyOwner(k)) || (b.Some? && ObjectExists(s, b.value.0) && b.value.1 != IncarnationOf(s, b.value.0))
      then Size(f.value) else 0
  }

  ghost function PendingWeight(s: RegistryState, k: Key): nat
  {
    var f := At(s, k);
    if f.None? then 0
    else
      var waits := match f.value.value
        case SubjectClaim(side, v) =>
          !ObjectExists(s, side.objectId) || (!Fenced(s, KeyOwner(k))
            && v.objectIncarnation > IncarnationOf(s, side.objectId))
        case PortClaim(key, v) =>
          !PortExists(s, key.port) || !ObjectExists(s, v.subject.objectId)
            || v.objectIncarnation > IncarnationOf(s, v.subject.objectId)
        case LifecycleClaim(x, _) => !ObjectExists(s, x)
        case ReincarnationClaim(x, _) => !ObjectExists(s, x)
        case ObjectCapabilityClaim(x, _) => !ObjectExists(s, x)
        case PortCapabilityClaim(p, _) => !PortExists(s, p)
        case _ => false;
      if waits then 1 else 0
  }

  ghost function SessionClaims(s: RegistryState, o: Owner): nat { Total(KeysOf(s), k => SessionWeight(s, o, k)) }
  ghost function ObjectClaims(s: RegistryState, x: Id): nat { Total(KeysOf(s), k => ObjectWeight(s, x, k)) }

  // ---- build_snapshot() ----

  ghost function SnapObjects(s: RegistryState, ids: seq<Id>): (r: seq<Option<SnapObject>>)
    ensures |r| == |ids|
  {
    seq(|ids|, i requires 0 <= i < |ids| => SnapObjectOf(DeriveObject(s, IncludeAll, ids[i])))
  }

  ghost function SnapPorts(s: RegistryState, l: Limits, ports: seq<PortRef>): (r: seq<SnapPort>)
    ensures |r| == |ports|
  {
    seq(|ports|, i requires 0 <= i < |ports| => SnapPortOf(DerivePort(s, l, IncludeAll, ports[i])))
  }

  /** An endpoint is listed under the identity it is registered under. */
  function SnapEndpointOf(d: Option<EndpointDescriptor>, x: Id): Option<EndpointDescriptor>
  {
    if d.None? then None else Some(d.value.(id := x))
  }

  ghost function SnapEndpoints(s: RegistryState, ids: seq<Id>): (r: seq<Option<EndpointDescriptor>>)
    ensures |r| == |ids|
  {
    seq(|ids|, i requires 0 <= i < |ids| => SnapEndpointOf(EndpointOf(s, ids[i]), ids[i]))
  }

  ghost function SnapSessions(s: RegistryState, owners: seq<Owner>): (r: seq<SnapSession>)
    requires forall i :: 0 <= i < |owners| ==> owners[i].source in s.sources
    ensures |r| == |owners|
  {
    seq(|owners|, i requires 0 <= i < |owners| =>
      SnapSession(owners[i], s.sources[owners[i].source].currentIncarnation, SessionClaims(s, owners[i])))
  }

  ghost function SnapFencedObjects(s: RegistryState, ids: seq<Id>): (r: seq<SnapFenced>)
    ensures |r| == |ids|
  {
    seq(|ids|, i requires 0 <= i < |ids| => SnapFenced(ids[i], IncarnationOf(s, ids[i]), ObjectClaims(s, ids[i])))
  }

  ghost function FencedSessions(s: RegistryState): set<Owner> { set o | o in s.sessions && Fenced(s, o) }

  ghost function BoundObjects(s: RegistryState): set<Id>
  {
    set k | k in KeysOf(s) && At(s, k).Some? && Binding(At(s, k).value.value).Some? ::
      Binding(At(s, k).value.value).value.0
  }

  ghost function FencedObjects(s: RegistryState): set<Id> { set x | x in BoundObjects(s) && ObjectClaims(s, x) != 0 }

  ghost function BuildSnapshot(s: RegistryState, l: Limits): Snapshot
  {
    var sessions := Sorted(FencedSessions(s), OwnerRank);
    assert forall i :: 0 <= i < |sessions| ==> sessions[i] in sessions;
    Snapshot(
      SnapObjects(s, Sorted(s.objects.Keys, IdRank)), SnapEndpoints(s, Sorted(s.endpoints.Keys, IdRank)),
      SnapPorts(s, l, Sorted(s.ports.Keys, PortRank)), SnapSessions(s, sessions),
      SnapFencedObjects(s, Sorted(FencedObjects(s), IdRank)),
      Total(KeysOf(s), k => FencedWeight(s, k)), Total(KeysOf(s), k => PendingWeight(s, k)))
  }

  // ---- What a snapshot may depend on ----

  function CanonFolded<V>(f: Folded<V>): Folded<V>
  {
    Folded(EraseMeta(Timeless, f.meta), f.value, EraseMetas(Timeless, f.superseded), 0)
  }

  function CanonGroup<K, V>(g: map<K, Folded<V>>): map<K, Folded<V>> { map k | k in g :: CanonFolded(g[k]) }

  function CanonTable<P, K, V>(t: Table<P, K, V>): Table<P, K, V> { map p | p in t :: CanonGroup(t[p]) }

  /** Same sources, same session keys, and tables equal but for receive times, lifetime flags and overflow counts. */
  ghost predicate SameEvidence(s: RegistryState, t: RegistryState)
  {
    && t.sources == s.sources && t.sessions.Keys == s.sessions.Keys
    && CanonTable(t.objects) == CanonTable(s.objects)
    && CanonTable(t.endpoints) == CanonTable(s.endpoints)
    && CanonTable(t.subjects) == CanonTable(s.subjects)
    && CanonTable(t.ports) == CanonTable(s.ports)
    && CanonTable(t.lifecycles) == CanonTable(s.lifecycles)
    && CanonTable(t.reincarnations) == CanonTable(s.reincarnations)
    && CanonTable(t.objectCapabilities) == CanonTable(s.objectCapabilities)
    && CanonTable(t.portCapabilities) == CanonTable(s.portCapabilities)
  }

  lemma CanonCell<P, K, V>(a: Table<P, K, V>, b: Table<P, K, V>, p: P, k: K)
    requires CanonTable(a) == CanonTable(b)
    ensures a.Keys == b.Keys
    ensures p in a ==> a[p].Keys == b[p].Keys
    ensures Cell(a, p, k).Some? == Cell(b, p, k).Some?
    ensures Cell(a, p, k).Some? ==> CanonFolded(Cell(a, p, k).value) == CanonFolded(Cell(b, p, k).value)
  {
    assert a.Keys == CanonTable(a).Keys == CanonTable(b).Keys == b.Keys;
    if p in a {
      assert CanonTable(a)[p] == CanonTable(b)[p];
      assert a[p].Keys == CanonGroup(a[p]).Keys == CanonGroup(b[p]).Keys == b[p].Keys;
      if k in a[p] {
        assert CanonGroup(a[p])[k] == CanonGroup(b[p])[k];
      }
    }
  }

  lemma CanonSame<P, K, V>(a: Table<P, K, V>, b: Table<P, K, V>, p: P, k: K)
    requires CanonTable(a) == CanonTable(b)
    ensures SameRecord(Timeless, Cell(a, p, k), Cell(b, p, k))
    ensures Cell(a, p, k).Some? ==> |Cell(a, p, k).value.superseded| == |Cell(b, p, k).value.superseded|
  {
    CanonCell(a, b, p, k);
    if Cell(a, p, k).Some? {
      var f, g := Cell(a, p, k).value, Cell(b, p, k).value;
      assert CanonFolded(f).meta == CanonFolded(g).meta;
      assert |CanonFolded(f).superseded| == |CanonFolded(g).superseded|;
    }
  }

  lemma CanonAgrees<P(!new), V>(s: RegistryState, a: Table<P, Owner, V>, b: Table<P, Owner, V>, fencedToo: bool)
    requires CanonTable(a) == CanonTable(b)
    ensures TableAgrees(Timeless, s, a, b, fencedToo)
  {
    forall p, o
      ensures SameRecord(Timeless, Cell(a, p, o), Cell(b, p, o))
    {
      CanonSame(a, b, p, o);
    }
  }

  lemma SameEvidenceAgrees(s: RegistryState, t: RegistryState)
    requires SameEvidence(s, t)
    ensures Agree(Timeless, s, t)
  {
    hide CanonTable, TableAgrees;
    CanonAgrees(s, s.objects, t.objects, true);
    CanonAgrees(s, s.endpoints, t.endpoints, true);
    CanonAgrees(s, s.subjects, t.subjects, false);
    CanonAgrees(s, s.lifecycles, t.lifecycles, false);
    CanonAgrees(s, s.reincarnations, t.reincarnations, false);
    CanonAgrees(s, s.objectCapabilities, t.objectCapabilities, false);
    CanonAgrees(s, s.portCapabilities, t.portCapabilities, false);
    forall p, key: SlotKey
      ensures SameRecord(Timeless, Cell(s.ports, p, key), Cell(t.ports, p, key))
    {
      CanonSame(s.ports, t.ports, p, key);
    }
  }

  // ---- Views to snapshot entries ----

  lemma CiteErased(a: seq<Attestation>, b: seq<Attestation>)
    requires EraseMetas(Timeless, a) == EraseMetas(Timeless, b)
    ensures CiteClaims(a) == CiteClaims(b)
  {
    assert |EraseMetas(Timeless, a)| == |EraseMetas(Timeless, b)|;
    forall i | 0 <= i < |a|
      ensures CiteClaim(a[i]) == CiteClaim(b[i])
    {
      assert EraseMetas(Timeless, a)[i] == EraseMetas(Timeless, b)[i];
      assert CiteClaim(EraseMeta(Timeless, a[i])) == CiteClaim(a[i]);
      assert CiteClaim(EraseMeta(Timeless, b[i])) == CiteClaim(b[i]);
    }
  }

  lemma EdgeErased(a: Edge, b: Edge)
    requires EraseEdge(Timeless, a) == EraseEdge(Timeless, b)
    ensures SnapEdgeOf(a) == SnapEdgeOf(b)
  {
    hide EraseMetas, CiteClaims;
    var x, y := EraseEdge(Timeless, a), EraseEdge(Timeless, b);
    assert a.subject == x.subject && a.port == x.port && a.slot == x.slot && a.incarnation == x.incarnation
           && a.authority == x.authority;
    assert a.connectorCompatible == x.connectorCompatible && a.mediaCompatible == x.mediaCompatible
           && a.conflicting == x.conflicting;
    assert EraseMetas(Timeless, a.claims) == x.claims && EraseMetas(Timeless, b.claims) == y.claims;
    CiteErased(a.claims, b.claims);
  }

  lemma EdgesErased(a: seq<Edge>, b: seq<Edge>)
    requires EraseEdges(Timeless, a) == EraseEdges(Timeless, b)
    ensures SnapEdgesOf(a) == SnapEdgesOf(b)
  {
    hide EraseEdge, SnapEdgeOf;
    assert |EraseEdges(Timeless, a)| == |EraseEdges(Timeless, b)|;
    forall i | 0 <= i < |a|
      ensures SnapEdgeOf(a[i]) == SnapEdgeOf(b[i])
    {
      assert EraseEdges(Timeless, a)[i] == EraseEdges(Timeless, b)[i];
      EdgeErased(a[i], b[i]);
    }
  }

  lemma NotesErased(a: seq<Note>, b: seq<Note>)
    requires EraseNotes(Timeless, a) == EraseNotes(Timeless, b)
    ensures SnapNotesOf(a) == SnapNotesOf(b)
  {
    assert |EraseNotes(Timeless, a)| == |EraseNotes(Timeless, b)|;
    forall i | 0 <= i < |a|
      ensures SnapNoteOf(a[i]) == SnapNoteOf(b[i])
    {
      var x, y := EraseNotes(Timeless, a)[i], EraseNotes(Timeless, b)[i];
      assert x == y && x.claims == EraseMetas(Timeless, a[i].claims) && y.claims == EraseMetas(Timeless, b[i].claims);
      CiteErased(a[i].claims, b[i].claims);
      assert a[i].reason == x.reason && a[i].subject == x.subject && a[i].port == x.port;
    }
  }

  lemma PortErased(a: PortView, b: PortView)
    requires ErasePort(Timeless, a) == ErasePort(Timeless, b)
    ensures SnapPortOf(a) == SnapPortOf(b)
  {
    hide EraseEdges, EraseNotes, EraseMetas, SnapEdgesOf, SnapNotesOf;
    var x, y := ErasePort(Timeless, a), ErasePort(Timeless, b);
    assert x.edges == EraseEdges(Timeless, a.edges) && y.edges == EraseEdges(Timeless, b.edges);
    assert x.conflicts == EraseNotes(Timeless, a.conflicts) && y.conflicts == EraseNotes(Timeless, b.conflicts);
    EdgesErased(a.edges, b.edges);
    NotesErased(a.conflicts, b.conflicts);
  }

  lemma {:induction false} SidesErased(a: seq<SideView>, b: seq<SideView>)
    requires EraseSides(Timeless, a) == EraseSides(Timeless, b)
    ensures Attachments(a) == Attachments(b) && Descriptors(a) == Descriptors(b)
  {
    hide EraseEdges, EraseNotes, SnapEdgesOf;
    assert |EraseSides(Timeless, a)| == |EraseSides(Timeless, b)|;
    if a != [] {
      var x, y := EraseSides(Timeless, a)[0], EraseSides(Timeless, b)[0];
      assert x == y && x.edges == EraseEdges(Timeless, a[0].edges) && y.edges == EraseEdges(Timeless, b[0].edges);
      EdgesErased(a[0].edges, b[0].edges);
      assert EraseSides(Timeless, a)[1..] == EraseSides(Timeless, a[1..]);
      assert EraseSides(Timeless, b)[1..] == EraseSides(Timeless, b[1..]);
      SidesErased(a[1..], b[1..]);
      forall i | 0 <= i < |a|
        ensures Descriptors(a)[i] == Descriptors(b)[i]
      {
        assert EraseSides(Timeless, a)[i] == EraseSides(Timeless, b)[i];
      }
    }
  }

  lemma ObjectErased(a: Option<ObjectView>, b: Option<ObjectView>)
    requires EraseObject(Timeless, a) == EraseObject(Timeless, b)
    ensures SnapObjectOf(a) == SnapObjectOf(b)
  {
    hide EraseSides, EraseNotes, Attachments, Descriptors, SortBy;
    if a.Some? {
      var x, y := EraseObject(Timeless, a).value, EraseObject(Timeless, b).value;
      assert x.sides == EraseSides(Timeless, a.value.sides) && y.sides == EraseSides(Timeless, b.value.sides);
      SidesErased(a.value.sides, b.value.sides);
      assert |x.conflicts| == |a.value.conflicts| && |y.conflicts| == |b.value.conflicts|;
    }
  }

  lemma SnapObjectsSame(s: RegistryState, t: RegistryState, ids: seq<Id>)
    requires Agree(Timeless, s, t)
    ensures SnapObjects(t, ids) == SnapObjects(s, ids)
  {
    hide Agree, DeriveObject, SnapObjectOf, EraseObject;
    forall i | 0 <= i < |ids|
      ensures SnapObjects(t, ids)[i] == SnapObjects(s, ids)[i]
    {
      AgreeObject(Timeless, s, t, IncludeAll, ids[i]);
      ObjectErased(DeriveObject(s, IncludeAll, ids[i]), DeriveObject(t, IncludeAll, ids[i]));
    }
  }

  lemma SnapPortsSame(s: RegistryState, t: RegistryState, l: Limits, ports: seq<PortRef>)
    requires Agree(Timeless, s, t)
    ensures SnapPorts(t, l, ports) == SnapPorts(s, l, ports)
  {
    hide Agree, DerivePort, SnapPortOf, ErasePort;
    forall i | 0 <= i < |ports|
      ensures SnapPorts(t, l, ports)[i] == SnapPorts(s, l, ports)[i]
    {
      AgreePort(Timeless, s, t, l, IncludeAll, ports[i]);
      PortErased(DerivePort(s, l, IncludeAll, ports[i]), DerivePort(t, l, IncludeAll, ports[i]));
    }
  }

  lemma SnapEndpointsSame(s: RegistryState, t: RegistryState, ids: seq<Id>)
    requires Agree(Timeless, s, t)
    ensures SnapEndpoints(t, ids) == SnapEndpoints(s, ids)
  {
    hide Agree, EndpointOf;
    forall i | 0 <= i < |ids|
      ensures SnapEndpoints(t, ids)[i] == SnapEndpoints(s, ids)[i]
    {
      AgreeRegistrations(Timeless, s, t, ids[i]);
    }
  }

  // ---- Counts ----

  lemma SameAt(s: RegistryState, t: RegistryState, k: Key)
    requires SameEvidence(s, t)
    ensures At(t, k).Some? == At(s, k).Some?
    ensures At(s, k).Some? ==>
            At(t, k).value.value == At(s, k).value.value && |At(t, k).value.superseded| == |At(s, k).value.superseded|
  {
    hide CanonTable;
    match k
    case ObjectKey(x, o) => CanonSame(s.objects, t.objects, x, o);
    case EndpointKey(x, o) => CanonSame(s.endpoints, t.endpoints, x, o);
    case SubjectKey(x, o) => CanonSame(s.subjects, t.subjects, x, o);
    case PortKey(x) => CanonSame(s.ports, t.ports, x.port, x);
    case LifecycleKey(x, o) => CanonSame(s.lifecycles, t.lifecycles, x, o);
    case ReincarnationKey(x, o) => CanonSame(s.reincarnations, t.reincarnations, x, o);
    case ObjectCapabilityKey(x, o) => CanonSame(s.objectCapabilities, t.objectCapabilities, x, o);
    case PortCapabilityKey(x, o) => CanonSame(s.portCapabilities, t.portCapabilities, x, o);
  }

  lemma CanonKeys<P(!new), K(!new), V>(a: Table<P, K, V>, b: Table<P, K, V>)
    requires CanonTable(a) == CanonTable(b)
    ensures a.Keys == b.Keys && forall p :: p in a ==> a[p].Keys == b[p].Keys
  {
    forall p, k
      ensures a.Keys == b.Keys && (p in a ==> a[p].Keys == b[p].Keys)
      ensures Cell(a, p, k).Some? == Cell(b, p, k).Some?
    {
      CanonCell(a, b, p, k);
    }
    assert a.Keys == CanonTable(a).Keys == CanonTable(b).Keys == b.Keys;
    forall p | p in a
      ensures a[p].Keys == b[p].Keys
    {
      assert CanonTable(a)[p] == CanonTable(b)[p];
      assert a[p].Keys == CanonGroup(a[p]).Keys == CanonGroup(b[p]).Keys == b[p].Keys;
    }
  }

  lemma CanonTableKeys<P(!new), K(!new), V>(a: Table<P, K, V>, b: Table<P, K, V>, key: (P, K) -> Key)
    requires CanonTable(a) == CanonTable(b)
    ensures TableKeys(a, key) == TableKeys(b, key)
  {
    CanonKeys(a, b);
  }

  lemma SameKeys(s: RegistryState, t: RegistryState)
    requires SameEvidence(s, t)
    ensures KeysOf(t) == KeysOf(s)
  {
    hide CanonTable, TableKeys;
    CanonTableKeys(s.objects, t.objects, (x, o) => ObjectKey(x, o));
    CanonTableKeys(s.endpoints, t.endpoints, (x, o) => EndpointKey(x, o));
    CanonTableKeys(s.subjects, t.subjects, (x, o) => SubjectKey(x, o));
    CanonTableKeys(s.ports, t.ports, (p, k) => PortKey(k));
    CanonTableKeys(s.lifecycles, t.lifecycles, (x, o) => LifecycleKey(x, o));
    CanonTableKeys(s.reincarnations, t.reincarnations, (x, o) => ReincarnationKey(x, o));
    CanonTableKeys(s.objectCapabilities, t.objectCapabilities, (x, o) => ObjectCapabilityKey(x, o));
    CanonTableKeys(s.portCapabilities, t.portCapabilities, (x, o) => PortCapabilityKey(x, o));
  }

  lemma SamePortExists(s: RegistryState, t: RegistryState, port: PortRef)
    requires Agree(Timeless, s, t)
    ensures PortExists(t, port) == PortExists(s, port)
  {
    hide TableAgrees, SlotsAgree;
    AgreeAll(Timeless, s, s.endpoints, t.endpoints, port.endpoint);
    assert PortCounts(t, port.endpoint) == PortCounts(s, port.endpoint);
  }

  lemma SameWeights(s: RegistryState, t: RegistryState, k: Key)
    requires SameEvidence(s, t)
    ensures forall o :: SessionWeight(t, o, k) == SessionWeight(s, o, k)
    ensures forall x :: ObjectWeight(t, x, k) == ObjectWeight(s, x, k)
    ensures FencedWeight(t, k) == FencedWeight(s, k)
    ensures PendingWeight(t, k) == PendingWeight(s, k)
  {
    hide SameEvidence, Agree, At, Fenced, ObjectExists, IncarnationOf, PortExists;
    SameAt(s, t, k);
    SameEvidenceAgrees(s, t);
    AgreeFenced(Timeless, s, t);
    forall x: Id
      ensures ObjectExists(t, x) == ObjectExists(s, x) && IncarnationOf(t, x) == IncarnationOf(s, x)
    {
      AgreeExists(Timeless, s, t, x);
      AgreeIncarnation(Timeless, s, t, x);
    }
    forall port: PortRef
      ensures PortExists(t, port) == PortExists(s, port)
    {
      SamePortExists(s, t, port);
    }
  }

  lemma SameCounts(s: RegistryState, t: RegistryState)
    requires SameEvidence(s, t)
    ensures forall o :: SessionClaims(t, o) == SessionClaims(s, o)
    ensures forall x :: ObjectClaims(t, x) == ObjectClaims(s, x)
    ensures Total(KeysOf(t), k => FencedWeight(t, k)) == Total(KeysOf(s), k => FencedWeight(s, k))
    ensures Total(KeysOf(t), k => PendingWeight(t, k)) == Total(KeysOf(s), k => PendingWeight(s, k))
  {
    hide SameEvidence, KeysOf, SessionWeight, ObjectWeight, FencedWeight, PendingWeight, Total;
    SameKeys(s, t);
    forall k, o
      ensures SessionWeight(t, o, k) == SessionWeight(s, o, k)
    {
      SameWeights(s, t, k);
    }
    forall k, x
      ensures ObjectWeight(t, x, k) == ObjectWeight(s, x, k)
    {
      SameWeights(s, t, k);
    }
    forall k
      ensures FencedWeight(t, k) == FencedWeight(s, k) && PendingWeight(t, k) == PendingWeight(s, k)
    {
      SameWeights(s, t, k);
    }
    forall o
      ensures SessionClaims(t, o) == SessionClaims(s, o)
    {
      TotalSame(KeysOf(s), k => SessionWeight(s, o, k), k => SessionWeight(t, o, k));
    }
    forall x
      ensures ObjectClaims(t, x) == ObjectClaims(s, x)
    {
      TotalSame(KeysOf(s), k => ObjectWeight(s, x, k), k => ObjectWeight(t, x, k));
    }
    TotalSame(KeysOf(s), k => FencedWeight(s, k), k => FencedWeight(t, k));
    TotalSame(KeysOf(s), k => PendingWeight(s, k), k => PendingWeight(t, k));
  }

  lemma SameBound(s: RegistryState, t: RegistryState)
    requires SameEvidence(s, t)
    ensures BoundObjects(t) == BoundObjects(s)
  {
    hide SameEvidence, KeysOf, At;
    SameKeys(s, t);
    forall k
      ensures At(t, k).Some? == At(s, k).Some? && (At(s, k).Some? ==> At(t, k).value.value == At(s, k).value.value)
    {
      SameAt(s, t, k);
    }
  }

  lemma SameTableKeys(s: RegistryState, t: RegistryState)
    requires SameEvidence(s, t)
    ensures t.objects.Keys == s.objects.Keys && t.endpoints.Keys == s.endpoints.Keys && t.ports.Keys == s.ports.Keys
  {
    hide CanonTable;
    CanonKeys(s.objects, t.objects);
    CanonKeys(s.endpoints, t.endpoints);
    CanonKeys(s.ports, t.ports);
  }

  /** Graph identity: states holding the same evidence have the same snapshot, whenever and wherever it was received. */
  lemma SnapshotOfEvidence(s: RegistryState, t: RegistryState, l: Limits)
    requires SameEvidence(s, t)
    ensures BuildSnapshot(t, l) == BuildSnapshot(s, l)
  {
    hide SnapObjects, SnapEndpoints, SnapPorts, SessionClaims, ObjectClaims, KeysOf, FencedWeight, PendingWeight;
    hide BoundObjects, IncarnationOf, Agree, CanonTable, Total, Sorted;
    SameEvidenceAgrees(s, t);
    SameTableKeys(s, t);
    SnapObjectsSame(s, t, Sorted(s.objects.Keys, IdRank));
    SnapEndpointsSame(s, t, Sorted(s.endpoints.Keys, IdRank));
    SnapPortsSame(s, t, l, Sorted(s.ports.Keys, PortRank));
    SameCounts(s, t);
    SameBound(s, t);
    AgreeFenced(Timeless, s, t);
    assert FencedSessions(t) == FencedSessions(s);
    assert FencedObjects(t) == FencedObjects(s);
    var sessions := Sorted(FencedSessions(s), OwnerRank);
    assert forall i :: 0 <= i < |sessions| ==> sessions[i] in sessions;
    assert SnapSessions(t, sessions) == SnapSessions(s, sessions);
    var ids := Sorted(FencedObjects(s), IdRank);
    forall i | 0 <= i < |ids|
      ensures SnapFencedObjects(t, ids)[i] == SnapFencedObjects(s, ids)[i]
    {
      AgreeIncarnation(Timeless, s, t, ids[i]);
    }
    assert SnapFencedObjects(t, ids) == SnapFencedObjects(s, ids);
  }

  // ---- A recovered registry claims nothing is fresh ----

  lemma ClearRecord<V>(f: Folded<V>)
    ensures CanonFolded(ClearFolded(f)) == CanonFolded(f)
  {
    assert EraseMetas(Timeless, ClearRing(f.superseded)) == EraseMetas(Timeless, f.superseded);
  }

  lemma ClearSame<P, K, V>(t: Table<P, K, V>)
    ensures CanonTable(ClearTable(t)) == CanonTable(t)
  {
    hide CanonFolded, ClearFolded;
    forall p | p in t
      ensures CanonGroup(ClearGroup(t[p])) == CanonGroup(t[p])
    {
      forall k | k in t[p]
        ensures CanonFolded(ClearFolded(t[p][k])) == CanonFolded(t[p][k])
      {
        ClearRecord(t[p][k]);
      }
    }
  }

  lemma ClearKeepsEvidence(s: RegistryState)
    ensures SameEvidence(s, ClearVolatile(s))
  {
    hide CanonTable, ClearTable;
    ClearSame(s.objects);
    ClearSame(s.endpoints);
    ClearSame(s.subjects);
    ClearSame(s.ports);
    ClearSame(s.lifecycles);
    ClearSame(s.reincarnations);
    ClearSame(s.objectCapabilities);
    ClearSame(s.portCapabilities);
    assert ClearSessions(s.sessions).Keys == s.sessions.Keys;
  }

  /** After clear_volatile the snapshot is the same, and under LiveOnly every port and side is Unknown. */
  lemma RestartHidesEverything(s: RegistryState, l: Limits, port: PortRef, side: SideRef)
    ensures BuildSnapshot(ClearVolatile(s), l) == BuildSnapshot(s, l)
    ensures DerivePort(ClearVolatile(s), l, LiveOnly, port).state == Unknown
    ensures DerivePort(ClearVolatile(s), l, LiveOnly, port).edges == []
    ensures DeriveSide(ClearVolatile(s), side, LiveOnly).state == Unknown
  {
    hide BuildSnapshot, IncarnationOf, LifecycleOf, ObjectExists, SubjectAgrees, CapabilityOf;
    ClearKeepsEvidence(s);
    SnapshotOfEvidence(s, ClearVolatile(s), l);
    NothingLive(s, port, side);
  }

  lemma NothingLive(s: RegistryState, port: PortRef, side: SideRef)
    ensures SlotAuthorities(ClearVolatile(s), LiveOnly, port) == {}
    ensures SideAuthorities(ClearVolatile(s), side, LiveOnly, true) == {}
            && SideAuthorities(ClearVolatile(s), side, LiveOnly, false) == {}
  {
    hide IncarnationOf, LifecycleOf, ObjectExists, SubjectAgrees, Fenced;
    var t := ClearVolatile(s);
    forall key | key in Group(t.ports, port)
      ensures !Group(t.ports, port)[key].meta.inLifetime
    {
    }
    assert LiveSlots(t, LiveOnly, port) == {};
    forall o | o in Group(t.subjects, side)
      ensures !Group(t.subjects, side)[o].meta.inLifetime
    {
    }
    assert LiveSides(t, side, LiveOnly) == {};
    assert SideOwners(t, side, LiveOnly, true) == {} && SideOwners(t, side, LiveOnly, false) == {};
  }
}
