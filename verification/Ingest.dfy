// Ingestion: what a record claims, how each claim key resolves, what is staged, and what
// the staged change does to the state.  Nothing is written unless the whole record is
// accepted and, when it is to be durable, persisted.

module Ingest {
  import opened Words
  import opened Evidence
  import opened Ordering
  import opened State
  import opened Fold
  import opened Lifecycle

  datatype Disposition =
    | Accepted | AcceptedFencedSource | AcceptedFencedIncarnation | AcceptedPendingReference
    | AcceptedPendingIncarnation | AcceptedSuperseded | DuplicateRecord
    | RefusedUnknownSource | RefusedLabelConflict | RefusedConflict | RefusedInvalid
    | RefusedCapacity | RefusedClosed | RefusedPersistence

  predicate IsAccepted(d: Disposition)
  {
    d.Accepted? || d.AcceptedFencedSource? || d.AcceptedFencedIncarnation? || d.AcceptedPendingReference? ||
    d.AcceptedPendingIncarnation? || d.AcceptedSuperseded? || d.DuplicateRecord?
  }

  // ---- Claims ----

  /** One claim key (all but its owner) and what a record asserts there. */
  datatype Claim =
    | ObjectClaim(target: Id, objectDescriptor: ObjectDescriptor)
    | EndpointClaim(target: Id, endpointDescriptor: EndpointDescriptor)
    | SubjectClaim(side: SideRef, subjectValue: SubjectValue)
    | PortClaim(slotKey: SlotKey, portValue: PortValue)
    | LifecycleClaim(target: Id, lifecycle: LifecycleValue)
    | ReincarnationClaim(target: Id, reincarnation: ReincarnationValue)
    | ObjectCapabilityClaim(target: Id, nominal: NominalCapability)
    | PortCapabilityClaim(port: PortRef, capability: PortCapability)

  const NO_PORT: PortRef := PortRef(0, 0)

  /** Every claim key a record touches, and what it says there. */
  function ClaimsOf(e: Evidence): (r: seq<Claim>)
    ensures 1 <= |r| <= 3
  {
    var o := OwnerOf(e);
    match e.payload
    case RegisterObject(d) => [ObjectClaim(d.id, d)]
    case RegisterEndpoint(d) => [EndpointClaim(d.id, d)]
    case Attach(subject, port, incarnation, slot) =>
      [SubjectClaim(subject, SubjectValue(incarnation, true, port, slot, false, NO_PORT)),
       PortClaim(SlotKey(o, port, slot), PortValue(incarnation, false, subject))]
    case Detach(subject, incarnation, hasFromPort, fromPort, slot) =>
      [SubjectClaim(subject, SubjectValue(incarnation, false, NO_PORT, 0, false, NO_PORT))] +
      (if hasFromPort then [PortClaim(SlotKey(o, fromPort, slot), PortValue(incarnation, true, subject))] else [])
    case Move(subject, incarnation, from, to, fromSlot, toSlot) =>
      [SubjectClaim(subject, SubjectValue(incarnation, true, to, toSlot, true, from)),
       PortClaim(SlotKey(o, to, toSlot), PortValue(incarnation, false, subject))] +
      (if from == to && fromSlot == toSlot then []
       else [PortClaim(SlotKey(o, from, fromSlot), PortValue(incarnation, true, subject))])
    case PublishObjectCapability(x, capability) => [ObjectCapabilityClaim(x, capability)]
    case PublishPortCapability(port, capability) => [PortCapabilityClaim(port, capability)]
    case SetLifecycle(x, incarnation, action, reason) => [LifecycleClaim(x,
      LifecycleValue(incarnation, action, reason))]
    case ReincarnateObject(x, from, serial, reason) =>
      [ReincarnationClaim(x, ReincarnationValue(from, TargetOf(from), serial, reason))]
  }

  function OutcomeAt<P, K, V(==)>(t: Table<P, K, V>, p: P, k: K, meta: Attestation, same: V -> bool): KeyOutcome
  {
    if Has(t, p, k) then CompareGeneration(t[p][k].meta, meta, same(t[p][k].value)) else Insert
  }

  /** How one claim of a record relates to what its key already holds. */
  function OutcomeOf(s: RegistryState, c: Claim, meta: Attestation): KeyOutcome
  {
    match c
    case ObjectClaim(x, d) => OutcomeAt(s.objects, x, meta.owner, meta, v => v == d)
    case EndpointClaim(x, d) => OutcomeAt(s.endpoints, x, meta.owner, meta, v => v == d)
    case SubjectClaim(side, v) => OutcomeAt(s.subjects, side, meta.owner, meta, w => w == v)
    case PortClaim(key, v) => OutcomeAt(s.ports, key.port, key, meta, w => w == v)
    // Equal generations compare a lifecycle by action and reason, not by incarnation.
    case LifecycleClaim(x, v) =>
      OutcomeAt(s.lifecycles, x, meta.owner, meta, (w: LifecycleValue) => w.action == v.action && w.reason == v.reason)
    case ReincarnationClaim(x, v) =>
      OutcomeAt(s.reincarnations, x, meta.owner, meta,
        (w: ReincarnationValue) => w.from == v.from && w.serial == v.serial && w.reason == v.reason)
    case ObjectCapabilityClaim(x, v) => OutcomeAt(s.objectCapabilities, x, meta.owner, meta, w => w == v)
    case PortCapabilityClaim(p, v) => OutcomeAt(s.portCapabilities, p, meta.owner, meta, w => w == v)
  }

  // ---- The label rule ----

  ghost predicate HoldsLabel(s: RegistryState, x: Id, text: Text)
  {
    exists o :: o in Group(s.objects, x) && s.objects[x][o].value.physicalLabel == text
  }

  /** Other objects that carry the label and are not retired. */
  ghost function LabelBlockers(s: RegistryState, d: ObjectDescriptor): set<Id>
  {
    set x | x in s.objects && x != d.id && HoldsLabel(s, x, d.physicalLabel) && LifecycleOf(s, x).action != Retired
  }

  /** The holder a full scan of the registrations in id order would report. */
  ghost function LabelConflict(s: RegistryState, d: ObjectDescriptor): Option<Id>
  {
    if d.physicalLabel == [] || LabelBlockers(s, d) == {} then None
    else Some(Least(LabelBlockers(s, d), IdRank))
  }

  // ---- Staging ----

  /** What is to be written: rings take the losing claims, then the winning claims are folded in. */
  datatype Staged = Staged(meta: Attestation, rings: seq<Claim>, writes: seq<Claim>, apply: bool)

  datatype Decision = Decision(disposition: Disposition, staged: Staged, labelHolder: Option<Id>)

  function Nothing(meta: Attestation, d: Disposition): Decision
  {
    Decision(d, Staged(meta, [], [], false), None)
  }

  function Write(meta: Attestation, c: Claim, d: Disposition): Decision
  {
    Decision(d, Staged(meta, [], [c], true), None)
  }

  function RingOnly(meta: Attestation, c: Claim): Decision
  {
    Decision(AcceptedSuperseded, Staged(meta, [c], [], true), None)
  }

  /** A record that names a fenced source or a past or future incarnation is kept but not effective. */
  function Effective(base: Disposition, sessionFenced: bool, pastIncarnation: bool,
                     futureIncarnation: bool): Disposition
  {
    if sessionFenced then AcceptedFencedSource
    else if pastIncarnation then AcceptedFencedIncarnation
    else if futureIncarnation then AcceptedPendingIncarnation
    else base
  }

  /** A key that already holds this generation or a newer one settles a single-key record. */
  function Settled(meta: Attestation, c: Claim, outcome: KeyOutcome): Decision
    requires outcome != Insert
  {
    match outcome
    case Superseded => RingOnly(meta, c)
    case Duplicate => Nothing(meta, DuplicateRecord)
    case Collision => Nothing(meta, RefusedConflict)
  }

  predicate PortCapacityReached(s: RegistryState, l: Limits, key: SlotKey)
  {
    key.port in s.ports && key !in s.ports[key.port] && |s.ports[key.port]| >= l.maxClaimsPerPort
  }

  /** The claims of c whose key resolved as wanted. */
  function Select(s: RegistryState, claims: seq<Claim>, meta: Attestation, wanted: KeyOutcome): (r: seq<Claim>)
    ensures forall c :: c in r <==> c in claims && OutcomeOf(s, c, meta) == wanted
  {
    if claims == [] then []
    else
      (if OutcomeOf(s, claims[0], meta) == wanted then [claims[0]] else []) + Select(s, claims[1..], meta, wanted)
  }

  ghost function DecidePlacement(s: RegistryState, l: Limits, e: Evidence, meta: Attestation): Decision
    requires e.payload.Attach? || e.payload.Detach? || e.payload.Move?
  {
    var claims := ClaimsOf(e);
    if exists c ::
      c in claims && c.PortClaim? && PortCapacityReached(s, l, c.slotKey) then Nothing(meta, RefusedCapacity)
    else if exists c :: c in claims && OutcomeOf(s, c, meta) == Collision then Nothing(meta, RefusedConflict)
    else
      var writes := Select(s, claims, meta, Insert);
      var rings := Select(s, claims, meta, Superseded);
      if writes == [] && rings == [] then Nothing(meta, DuplicateRecord)
      else if writes == [] then Decision(AcceptedSuperseded, Staged(meta, rings, [], true), None)
      else
        var x := e.payload.subject.objectId;
        var current := IncarnationOf(s, x);
        var pending := !ObjectExists(s, x) || exists c :: c in claims && c.PortClaim? && !PortExists(s, c.slotKey.port);
        Decision(
          Effective(if pending then AcceptedPendingReference else Accepted, Fenced(s, meta.owner),
                    e.payload.objectIncarnation < current, e.payload.objectIncarnation > current),
          Staged(meta, rings, writes, true), None)
  }

  /** decide(): stages the change a record asks for, without touching the state. */
  ghost function Decide(s: RegistryState, l: Limits, e: Evidence, meta: Attestation): Decision
  {
    var fenced := Fenced(s, meta.owner);
    var c := ClaimsOf(e)[0];
    var outcome := OutcomeOf(s, c, meta);
    if e.payload.Attach? || e.payload.Detach? || e.payload.Move? then DecidePlacement(s, l, e, meta)
    else if outcome != Insert then Settled(meta, c, outcome)
    else
      match e.payload
      case RegisterObject(d) =>
        if LabelConflict(s, d).Some? then
          Decision(RefusedLabelConflict, Staged(meta, [], [], false), LabelConflict(s, d))
        else if d.id !in s.objects && |s.objects| >= l.maxObjects then Nothing(meta, RefusedCapacity)
        else Write(meta, c, Effective(Accepted, fenced, false, false))
      case RegisterEndpoint(d) =>
        if d.id !in s.endpoints && |s.endpoints| >= l.maxEndpoints then Nothing(meta, RefusedCapacity)
        else Write(meta, c, Effective(Accepted, fenced, false, false))
      case SetLifecycle(x, incarnation, _, _) =>
        Write(meta, c, Effective(if ObjectExists(s, x) then Accepted else AcceptedPendingReference, fenced,
                                 incarnation < IncarnationOf(s, x), incarnation > IncarnationOf(s, x)))
      case ReincarnateObject(x, from, _, _) =>
        if !ObjectExists(s, x) then Write(meta, c, Effective(AcceptedPendingReference, fenced, false, false))
        else if TargetOf(from) <= IncarnationOf(s, x) then RingOnly(meta, c)
        else Write(meta, c, Effective(Accepted, fenced, false, false))
      case PublishObjectCapability(x, _) =>
        Write(meta, c, Effective(if ObjectExists(s, x) then Accepted
          else AcceptedPendingReference, fenced, false, false))
      case PublishPortCapability(p, _) =>
        Write(meta, c, Effective(if PortExists(s, p) then Accepted else AcceptedPendingReference, fenced, false, false))
      case _ => Nothing(meta, RefusedInvalid)
  }

  // ---- Applying a staged change ----

  function WriteClaim(s: RegistryState, c: Claim, meta: Attestation, h: nat): RegistryState
  {
    match c
    case ObjectClaim(x, d) => s.(objects := FoldIn(s.objects, x, meta.owner, meta, d, h))
    case EndpointClaim(x, d) => s.(endpoints := FoldIn(s.endpoints, x, meta.owner, meta, d, h))
    case SubjectClaim(side, v) => s.(subjects := FoldIn(s.subjects, side, meta.owner, meta, v, h))
    case PortClaim(key, v) => s.(ports := FoldIn(s.ports, key.port, key, meta, v, h))
    case LifecycleClaim(x, v) => s.(lifecycles := FoldIn(s.lifecycles, x, meta.owner, meta, v, h))
    case ReincarnationClaim(x, v) => s.(reincarnations := FoldIn(s.reincarnations, x, meta.owner, meta, v, h))
    case ObjectCapabilityClaim(x, v) => s.(objectCapabilities := FoldIn(s.objectCapabilities, x, meta.owner, meta, v,
      h))
    case PortCapabilityClaim(p, v) => s.(portCapabilities := FoldIn(s.portCapabilities, p, meta.owner, meta, v, h))
  }

  function RingClaim(s: RegistryState, c: Claim, meta: Attestation, h: nat): RegistryState
  {
    match c
    case ObjectClaim(x, _) => s.(objects := FoldLosingIn(s.objects, x, meta.owner, meta, h))
    case EndpointClaim(x, _) => s.(endpoints := FoldLosingIn(s.endpoints, x, meta.owner, meta, h))
    case SubjectClaim(side, _) => s.(subjects := FoldLosingIn(s.subjects, side, meta.owner, meta, h))
    case PortClaim(key, _) => s.(ports := FoldLosingIn(s.ports, key.port, key, meta, h))
    case LifecycleClaim(x, _) => s.(lifecycles := FoldLosingIn(s.lifecycles, x, meta.owner, meta, h))
    case ReincarnationClaim(x, _) => s.(reincarnations := FoldLosingIn(s.reincarnations, x, meta.owner, meta, h))
    case ObjectCapabilityClaim(x, _) => s.(objectCapabilities := FoldLosingIn(s.objectCapabilities, x, meta.owner,
      meta, h))
    case PortCapabilityClaim(p, _) => s.(portCapabilities := FoldLosingIn(s.portCapabilities, p, meta.owner, meta, h))
  }

  function RingClaims(s: RegistryState, cs: seq<Claim>, meta: Attestation, h: nat): RegistryState
    decreases |cs|
  {
    if cs == [] then s else RingClaims(RingClaim(s, cs[0], meta, h), cs[1..], meta, h)
  }

  function WriteClaims(s: RegistryState, cs: seq<Claim>, meta: Attestation, h: nat): RegistryState
    decreases |cs|
  {
    if cs == [] then s else WriteClaims(WriteClaim(s, cs[0], meta, h), cs[1..], meta, h)
  }

  function ApplyChange(s: RegistryState, change: Staged, h: nat): RegistryState
  {
    WriteClaims(RingClaims(s, change.rings, change.meta, h), change.writes, change.meta, h)
  }

  // ---- One record ----

  function EvidenceIncarnation(p: Payload): U64
  {
    if p.Attach? || p.Detach? || p.Move? || p.SetLifecycle? then p.objectIncarnation else 0
  }

  function MetaOf(s: RegistryState, e: Evidence, receivedAt: I64, live: bool): Attestation
    requires e.header.source in s.sources
  {
    Attestation(OwnerOf(e), e.header.generation, e.header.id, e.header.observedAt, receivedAt, e.header.provenance,
                s.sources[e.header.source].descriptor.authority, EvidenceIncarnation(e.payload), live)
  }

  predicate KnownSession(s: RegistryState, e: Evidence)
  {
    && e.header.source in s.sources && s.sources[e.header.source].described
    && OwnerOf(e) in s.sessions
  }

  /** Session bookkeeping after a record; counters are 64 bit. */
  function NoteRecord(r: SessionRecord, generation: U64, d: Disposition): SessionRecord
  {
    var gap := if generation > r.highWater && r.highWater != 0 then generation - r.highWater - 1 else 0;
    r.(highWater := if generation > r.highWater then generation else r.highWater,
       missing := (r.missing + gap) % TWO_64,
       accepted := if IsAccepted(d) then (r.accepted + 1) % TWO_64 else r.accepted,
       duplicates := if d.DuplicateRecord? then (r.duplicates + 1) % TWO_64 else r.duplicates,
       refused := if IsAccepted(d) then r.refused else (r.refused + 1) % TWO_64)
  }

  datatype IngestResult = IngestResult(disposition: Disposition, state: RegistryState)

  /**
    * ingest_locked() on an open registry.  `durable` says whether the record could be persisted
    * (a replayed record needs no persisting); `live` marks records accepted in this process.
    */
  ghost function IngestRecord(s: RegistryState, l: Limits, h: nat, e: Evidence, receivedAt: I64, durable: bool,
                              live: bool):
    (r: IngestResult)
  {
    if !ValidShape(e, l) then IngestResult(RefusedInvalid, s)
    else if !KnownSession(s, e) then IngestResult(RefusedUnknownSource, s)
    else
      var decision := Decide(s, l, e, MetaOf(s, e, receivedAt, live));
      var writes := decision.staged.apply && IsAccepted(decision.disposition);
      var disposition := if writes && !durable then RefusedPersistence else decision.disposition;
      var s' := if writes && durable then ApplyChange(s, decision.staged, h) else s;
      var o := OwnerOf(e);
      IngestResult(disposition, s'.(sessions := s'.sessions[o := NoteRecord(s.sessions[o], e.header.generation,
        disposition)]))
  }
}
