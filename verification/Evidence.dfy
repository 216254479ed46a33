// The vocabulary of the registry: identities, authority, descriptors, limits, the
// evidence records publishers send, and the shape check every record must pass.

module Evidence {
  import opened Words

  // ---- Identities and references ----

  const TWO_128: int := 0x1_0000_0000_0000_0000_0000_0000_0000_0000

  /** A 128 bit identity; zero is nil.  Its order is that of (hi, lo). */
  type Id = x: int | 0 <= x < 0x1_0000_0000_0000_0000_0000_0000_0000_0000

  type Text = Bytes

  datatype PortRef = PortRef(endpoint: Id, index: U32)
  datatype SideRef = SideRef(objectId: Id, side: U32)

  /** A source incarnation: the owner of a stream of records. */
  datatype Owner = Owner(source: Id, incarnation: U64)
  datatype SlotKey = SlotKey(owner: Owner, port: PortRef, slot: U32)

  function IdRank(x: Id): int { x }
  function PortRank(p: PortRef): int { p.endpoint * TWO_32 + p.index }
  function SideRank(s: SideRef): int { s.objectId * TWO_32 + s.side }
  function OwnerRank(o: Owner): int { o.source * TWO_64 + o.incarnation }
  function SlotRank(k: SlotKey): int
  {
    OwnerRank(k.owner) * 0x1_0000_0000_0000_0000_0000_0000_0000_0000_0000_0000_0000_0000 +
    PortRank(k.port) * TWO_32 + k.slot
  }

  // ---- Authority and provenance ----

  datatype AuthorityClass = Speculative | Imported | Observed | Declared | Authoritative
  datatype Authority = Authority(authorityClass: AuthorityClass, rank: U32)

  function ClassOrdinal(c: AuthorityClass): (r: U8)
    ensures r <= 4
  {
    match c
    case Speculative => 0
    case Imported => 1
    case Observed => 2
    case Declared => 3
    case Authoritative => 4
  }

  /** Class first, rank within the class second. */
  function AuthorityRank(a: Authority): int { ClassOrdinal(a.authorityClass) * TWO_32 + a.rank }

  lemma AuthorityRankInjective(a: Authority, b: Authority)
    requires AuthorityRank(a) == AuthorityRank(b)
    ensures a == b
  {
  }

  type ProvenanceClass = x: int | 0 <= x <= 6

  datatype SourceDescriptor = SourceDescriptor(id: Id, name: Text, authority: Authority, domain: Text)

  // ---- Capabilities and descriptors ----

  type MediaClass = x: int | 0 <= x <= 8
  type ConnectorClass = x: int | 0 <= x <= 18
  type ObjectKind = x: int | 0 <= x <= 8
  type EndpointKind = x: int | 0 <= x <= 7

  const MEDIA_UNKNOWN: MediaClass := 0
  const CONNECTOR_UNKNOWN: ConnectorClass := 0

  datatype SideDescriptor = SideDescriptor(connector: ConnectorClass, media: MediaClass, lanes: U16)

  datatype NominalCapability = NominalCapability(
    media: MediaClass, connector: ConnectorClass, lanes: U16, laneRate: U64, totalRate: U64,
    reach: U64, reachDeclared: bool, code: Text)

  datatype PortCapability = PortCapability(
    maxAttachments: U32, connector: ConnectorClass, media: MediaClass, lanes: U16)

  datatype ObjectDescriptor = ObjectDescriptor(
    id: Id, kind: ObjectKind, physicalLabel: Text, serial: Text, location: Text,
    sides: seq<SideDescriptor>, capability: NominalCapability)

  datatype EndpointDescriptor = EndpointDescriptor(
    id: Id, kind: EndpointKind, name: Text, location: Text, portCount: U32, defaultCapability: PortCapability)

  datatype LifecycleAction = Present | Quarantined | Removed | Retired

  // ---- Evidence ----

  datatype Header = Header(
    id: Id, source: Id, incarnation: U64, generation: U64, observedAt: I64,
    provenance: ProvenanceClass, detail: Text, schemaVersion: U32)

  datatype Payload =
    | RegisterObject(objectDescriptor: ObjectDescriptor)
    | RegisterEndpoint(endpointDescriptor: EndpointDescriptor)
    | Attach(subject: SideRef, port: PortRef, objectIncarnation: U64, slot: U32)
    | Detach(subject: SideRef, objectIncarnation: U64, hasFromPort: bool, fromPort: PortRef, slot: U32)
    | Move(subject: SideRef, objectIncarnation: U64, from: PortRef, to: PortRef, fromSlot: U32, toSlot: U32)
    | PublishObjectCapability(objectId: Id, nominal: NominalCapability)
    | PublishPortCapability(port: PortRef, capability: PortCapability)
    | SetLifecycle(objectId: Id, objectIncarnation: U64, action: LifecycleAction, reason: Text)
    | ReincarnateObject(objectId: Id, fromIncarnation: U64, serial: Text, reason: Text)

  datatype Evidence = Evidence(header: Header, payload: Payload)

  const EVIDENCE_SCHEMA_VERSION: U32 := 1

  function OwnerOf(e: Evidence): Owner { Owner(e.header.source, e.header.incarnation) }

  // ---- Limits ----

  datatype Limits = Limits(
    maxObjects: U32, maxEndpoints: U32, maxPortsPerEndpoint: U32, maxSidesPerObject: U32, maxSources: U32,
    maxPortAttachments: U32, maxClaimsPerPort: U32, maxHistoryPerKey: U32, maxOverridden: U32,
    maxStringBytes: U32, maxCodeBytes: U32, maxRefusals: U32)

  // ---- The shape check ----

  const MAX_OBJECT_INCARNATION: U64 := 0x1_0000_0000

  predicate Fits(t: Text, maxBytes: U32) { |t| <= maxBytes }

  predicate ValidPortCapability(c: PortCapability, l: Limits)
  {
    1 <= c.maxAttachments <= l.maxPortAttachments
  }

  predicate ValidObjectDescriptor(d: ObjectDescriptor, l: Limits)
  {
    && d.id != 0
    && 1 <= |d.sides| <= l.maxSidesPerObject
    && Fits(d.physicalLabel, l.maxStringBytes) && Fits(d.serial, l.maxStringBytes) && Fits(d.location, l.maxStringBytes)
    && Fits(d.capability.code, l.maxCodeBytes)
  }

  predicate ValidEndpointDescriptor(d: EndpointDescriptor, l: Limits)
  {
    && d.id != 0
    && 1 <= d.portCount <= l.maxPortsPerEndpoint
    && Fits(d.name, l.maxStringBytes) && Fits(d.location, l.maxStringBytes)
    && ValidPortCapability(d.defaultCapability, l)
  }

  /** The incarnation a reincarnation record establishes; uint64 addition wraps. */
  function TargetOf(fromIncarnation: U64): U64 { (fromIncarnation + 1) % TWO_64 }

  predicate ValidPayload(p: Payload, l: Limits)
  {
    match p
    case RegisterObject(d) => ValidObjectDescriptor(d, l)
    case RegisterEndpoint(d) => ValidEndpointDescriptor(d, l)
    case Attach(subject, port, incarnation, slot) =>
      subject.objectId != 0 && port.endpoint != 0 && incarnation != 0 && slot < l.maxPortAttachments
    case Detach(subject, incarnation, hasFromPort, fromPort, slot) =>
      subject.objectId != 0 && incarnation != 0 && (hasFromPort ==> fromPort.endpoint != 0)
        && slot < l.maxPortAttachments
    case Move(subject, incarnation, from, to, fromSlot, toSlot) =>
      && subject.objectId != 0 && from.endpoint != 0 && to.endpoint != 0 && incarnation != 0
      && fromSlot < l.maxPortAttachments && toSlot < l.maxPortAttachments
    case PublishObjectCapability(target, capability) => target != 0 && Fits(capability.code, l.maxCodeBytes)
    case PublishPortCapability(port, capability) => port.endpoint != 0 && ValidPortCapability(capability, l)
    case SetLifecycle(target, incarnation, _, reason) => target != 0 && incarnation != 0
      && Fits(reason, l.maxStringBytes)
    case ReincarnateObject(target, from, serial, reason) =>
      && target != 0 && from != 0 && TargetOf(from) <= MAX_OBJECT_INCARNATION
      && Fits(serial, l.maxStringBytes) && Fits(reason, l.maxStringBytes)
  }

  predicate ValidShape(e: Evidence, l: Limits)
  {
    && e.header.id != 0 && e.header.source != 0 && e.header.incarnation != 0 && e.header.generation != 0
    && e.header.schemaVersion == EVIDENCE_SCHEMA_VERSION
    && Fits(e.header.detail, l.maxStringBytes)
    && ValidPayload(e.payload, l)
  }

  /**
    * The range check on reincarnations is `from + 1 > 2^32` in 64 bits.  It admits exactly the
    * values whose target is in range and, by wrap-around, the largest one, whose target is zero.
    */
  lemma ReincarnationRange(p: Payload, l: Limits)
    requires p.ReincarnateObject? && p.objectId != 0
    requires Fits(p.serial, l.maxStringBytes) && Fits(p.reason, l.maxStringBytes)
    ensures ValidPayload(p, l) <==> 1 <= p.fromIncarnation < MAX_OBJECT_INCARNATION || p.fromIncarnation == TWO_64 - 1
    ensures ValidPayload(p, l) ==>
              TargetOf(p.fromIncarnation) == if p.fromIncarnation == TWO_64 - 1 then 0 else p.fromIncarnation + 1
  {
  }
}
