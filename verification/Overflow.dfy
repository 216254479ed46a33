// The one way past a port's claim limit: a Move between two fresh slots of one port, whose two
// keys are both checked against the state before either is written.

module Overflow {
  import opened Words
  import opened Evidence
  import opened Ordering
  import opened State
  import opened Fold
  import opened Lifecycle
  import opened Ingest
  import opened Sessions
  import opened Keys
  import opened Effects
  import opened Invariants
  import opened Bounds

  /** What the record says about the side it moves. */
  function MovedSide(p: Payload): SubjectValue
    requires p.Move?
  {
    SubjectValue(p.objectIncarnation, true, p.to, p.toSlot, true, p.from)
  }

  /** The owner already said something else about the side in this very generation. */
  predicate SideCollides(s: RegistryState, e: Evidence)
    requires e.payload.Move?
  {
    var f := Cell(s.subjects, e.payload.subject, OwnerOf(e));
    f.Some? && f.value.meta.generation == e.header.generation && f.value.value != MovedSide(e.payload)
  }

  predicate FreshSlot(s: RegistryState, e: Evidence, p: PortRef, slot: U32)
  {
    SlotKey(OwnerOf(e), p, slot) !in Group(s.ports, p)
  }

  /** A Move from one fresh slot of p to another. */
  predicate FreshMove(s: RegistryState, e: Evidence, p: PortRef)
  {
    && e.payload.Move? && e.payload.from == e.payload.to == p && e.payload.fromSlot != e.payload.toSlot
    && FreshSlot(s, e, p, e.payload.fromSlot) && FreshSlot(s, e, p, e.payload.toSlot)
  }

  /** Nothing stands in the way of the record but its claims on p. */
  predicate Admissible(s: RegistryState, l: Limits, e: Evidence, durable: bool)
    requires e.payload.Move?
  {
    ValidShape(e, l) && KnownSession(s, e) && durable && !SideCollides(s, e)
  }

  lemma SideOutcome(s: RegistryState, e: Evidence, meta: Attestation)
    requires e.payload.Move? && meta.owner == OwnerOf(e) && meta.generation == e.header.generation
    ensures OutcomeOf(s, SubjectClaim(e.payload.subject, MovedSide(e.payload)), meta) == Collision <==>
            SideCollides(s, e)
  {
  }

  lemma FreshOutcome(s: RegistryState, e: Evidence, meta: Attestation, p: PortRef, slot: U32, v: PortValue)
    requires meta.owner == OwnerOf(e) && FreshSlot(s, e, p, slot)
    ensures OutcomeOf(s, PortClaim(SlotKey(OwnerOf(e), p, slot), v), meta) == Insert
  {
  }

  /** Such a Move is applied when the port is below its limit. */
  lemma FreshMoveApplied(s: RegistryState, l: Limits, e: Evidence, receivedAt: I64, durable: bool, live: bool,
                         p: PortRef)
    requires FreshMove(s, e, p) && Admissible(s, l, e, durable) && |Group(s.ports, p)| < l.maxClaimsPerPort
    ensures Applied(s, l, e, receivedAt, durable, live)
  {
    hide OutcomeOf, ValidShape, IncarnationOf, PortExists, Fenced, ObjectExists, SideCollides;
    var meta := MetaOf(s, e, receivedAt, live);
    var side := SubjectClaim(e.payload.subject, MovedSide(e.payload));
    var to := PortClaim(SlotKey(OwnerOf(e), p, e.payload.toSlot), PortValue(e.payload.objectIncarnation, false,
      e.payload.subject));
    var from := PortClaim(SlotKey(OwnerOf(e), p, e.payload.fromSlot), PortValue(e.payload.objectIncarnation, true,
      e.payload.subject));
    assert ClaimsOf(e) == [side, to, from];
    SideOutcome(s, e, meta);
    FreshOutcome(s, e, meta, p, e.payload.toSlot, to.portValue);
    FreshOutcome(s, e, meta, p, e.payload.fromSlot, from.portValue);
    assert to in Select(s, ClaimsOf(e), meta, Insert);
  }

  /** And then both slots hold a record. */
  lemma FreshMoveLands(s: RegistryState, l: Limits, h: nat, e: Evidence, receivedAt: I64, durable: bool, live: bool,
                       p: PortRef, slot: U32)
    requires FreshMove(s, e, p) && Applied(s, l, e, receivedAt, durable, live)
    requires slot == e.payload.fromSlot || slot == e.payload.toSlot
    ensures SlotKey(OwnerOf(e), p, slot) in Group(IngestRecord(s, l, h, e, receivedAt, durable, live).state.ports, p)
  {
    hide IngestRecord, OutcomeOf, ValidShape, Decide;
    var key := SlotKey(OwnerOf(e), p, slot);
    var meta := MetaOf(s, e, receivedAt, live);
    IngestAt(s, l, h, e, receivedAt, durable, live, PortKey(key));
    var c := Find(ClaimsOf(e), OwnerOf(e), PortKey(key));
    var d := PortClaim(key, PortValue(e.payload.objectIncarnation, slot == e.payload.fromSlot, e.payload.subject));
    assert d in ClaimsOf(e) && KeyOf(d, OwnerOf(e)) == PortKey(key);
    assert c.Some? && KeyOf(c.value, OwnerOf(e)) == PortKey(key);
    assert c.value.PortClaim? && c.value.slotKey == key;
    FreshOutcome(s, e, meta, p, slot, c.value.portValue);
  }

  lemma FreshMoveGrows(s: RegistryState, l: Limits, h: nat, e: Evidence, receivedAt: I64, durable: bool, live: bool,
                       p: PortRef)
    requires SlotsFiled(s.ports)
    requires FreshMove(s, e, p) && Admissible(s, l, e, durable) && |Group(s.ports, p)| < l.maxClaimsPerPort
    ensures |Group(IngestRecord(s, l, h, e, receivedAt, durable, live).state.ports, p)| >= |Group(s.ports, p)| + 2
  {
    hide IngestRecord, ValidShape, Applied, SideCollides;
    var before := Group(s.ports, p).Keys;
    var after := Group(IngestRecord(s, l, h, e, receivedAt, durable, live).state.ports, p).Keys;
    var a, b := SlotKey(OwnerOf(e), p, e.payload.fromSlot), SlotKey(OwnerOf(e), p, e.payload.toSlot);
    FreshMoveApplied(s, l, e, receivedAt, durable, live, p);
    FreshMoveLands(s, l, h, e, receivedAt, durable, live, p, e.payload.fromSlot);
    FreshMoveLands(s, l, h, e, receivedAt, durable, live, p, e.payload.toSlot);
    forall key | key in before
      ensures key in after
    {
      SlotStays(s, l, h, e, receivedAt, durable, live, p, key);
    }
    SubsetSize(before + {a, b}, after);
    assert |before + {a, b}| == |before| + 2;
  }

  lemma SlotStays(s: RegistryState, l: Limits, h: nat, e: Evidence, receivedAt: I64, durable: bool, live: bool,
                  p: PortRef, key: SlotKey)
    requires SlotsFiled(s.ports) && key in Group(s.ports, p)
    ensures key in Group(IngestRecord(s, l, h, e, receivedAt, durable, live).state.ports, p)
  {
    hide IngestRecord, Applied;
    assert key.port == p && At(s, PortKey(key)).Some?;
    IngestOrigin(s, l, h, e, receivedAt, durable, live, PortKey(key));
  }

  /** A record that makes a port grow was applied, and collided nowhere. */
  lemma GrowthAdmissible(s: RegistryState, l: Limits, h: nat, e: Evidence, receivedAt: I64, durable: bool, live: bool,
                         p: PortRef, key: SlotKey)
    requires ShapeOk(s) && e.payload.Move? && key !in Group(s.ports, p)
    requires key in Group(IngestRecord(s, l, h, e, receivedAt, durable, live).state.ports, p)
    ensures Admissible(s, l, e, durable)
  {
    hide IngestRecord, ValidShape, DecidePlacement, OutcomeOf, SideCollides;
    ShapeIngest(s, l, h, e, receivedAt, durable, live);
    IngestOrigin(s, l, h, e, receivedAt, durable, live, PortKey(key));
    var meta := MetaOf(s, e, receivedAt, live);
    DecidesPlacement(s, l, e, meta);
    PlacementStaged(s, l, e, meta);
    assert SubjectClaim(e.payload.subject, MovedSide(e.payload)) in ClaimsOf(e);
    SideOutcome(s, e, meta);
  }

  /**
    * The exact condition.  A port within its limit is past it after a record if and only if the
    * record is a Move between two fresh slots of that port, nothing else refuses it, and the port
    * was one short of its limit.  It is then past it by one.
    */
  lemma PortOverflow(s: RegistryState, l: Limits, h: nat, e: Evidence, receivedAt: I64, durable: bool, live: bool,
                     p: PortRef)
    requires ShapeOk(s) && l.maxClaimsPerPort >= 1 && |Group(s.ports, p)| <= l.maxClaimsPerPort
    ensures var n' := |Group(IngestRecord(s, l, h, e, receivedAt, durable, live).state.ports, p)|;
            && (n' > l.maxClaimsPerPort <==>
                  && FreshMove(s, e, p) && Admissible(s, l, e, durable)
                  && |Group(s.ports, p)| + 1 == l.maxClaimsPerPort)
            && n' <= l.maxClaimsPerPort + 1
  {
    hide IngestRecord, ValidShape, SideCollides, ShapeOk;
    var before, after := Group(s.ports, p).Keys, Group(IngestRecord(s, l, h, e, receivedAt, durable, live).state.ports,
      p).Keys;
    PortGrows(s, l, h, e, receivedAt, durable, live, p);
    if |after| > l.maxClaimsPerPort {
      if after <= before { SubsetSize(after, before); }
      var key :| key in after && key !in before;
      GrowthAdmissible(s, l, h, e, receivedAt, durable, live, p, key);
    } else if FreshMove(s, e, p) && Admissible(s, l, e, durable) && |before| + 1 == l.maxClaimsPerPort {
      assert SlotsFiled(s.ports) by { ShapeFiled(s); }
      FreshMoveGrows(s, l, h, e, receivedAt, durable, live, p);
    }
  }

  lemma ShapeFiled(s: RegistryState)
    requires ShapeOk(s)
    ensures SlotsFiled(s.ports)
  {
  }

  // ---- It happens ----

  const PANEL: PortRef := PortRef(5, 0)
  const ROBOT: SourceDescriptor := SourceDescriptor(7, [], Authority(Observed, 1), [])
  const TIGHT: Limits := Limits(16, 16, 16, 16, 4, 4, 1, 8, 8, 64, 16, 8)

  function Shift(): Evidence
  {
    Evidence(Header(1, 7, 1, 1, 0, 0, [], EVIDENCE_SCHEMA_VERSION), Move(SideRef(9, 0), 1, PANEL, PANEL, 0, 1))
  }

  /** One source opens a session and reports one move within one port. */
  function Shifted(): seq<Event> { [Opening(ROBOT, 1, 1, true), Ingesting(Shift(), 1, true)] }

  lemma RobotOpens()
    ensures var s1 := OpenSession(EmptyState(1, 0), TIGHT, ROBOT, 1, 1, true);
            s1.ports == map[] && s1.subjects == map[] && KnownSession(s1, Shift()) && ShapeOk(s1)
  {
  }

  /** Two records at a port that admits one. */
  lemma OverflowReached()
    ensures |Group(Run(EmptyState(1, 0), TIGHT, 8, Shifted()).ports, PANEL)| == 2 == TIGHT.maxClaimsPerPort + 1
  {
    hide IngestRecord, OpenSession, ShapeOk;
    var s0 := EmptyState(1, 0);
    var s1 := OpenSession(s0, TIGHT, ROBOT, 1, 1, true);
    RobotOpens();
    assert Shifted()[..1] == [Opening(ROBOT, 1, 1, true)] && Shifted()[..1][..0] == [];
    assert Run(s0, TIGHT, 8, Shifted()[..1]) == s1;
    assert Cell(s1.subjects, SideRef(9, 0), Owner(7, 1)) == None;
    PortOverflow(s1, TIGHT, 8, Shift(), 1, true, true, PANEL);
  }
}
