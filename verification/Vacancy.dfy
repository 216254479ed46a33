// What one placement does to the slots it names: an attachment that is accepted shows, and a
// detachment that is accepted leaves the port empty.

module Vacancy {
  import opened Words
  import opened Evidence
  import opened Ordering
  import opened State
  import opened Fold
  import opened Lifecycle
  import opened Ingest
  import opened Keys
  import opened Effects
  import opened Invariants
  import Bounds
  import Interference
  import Overflow
  import opened Derive
  import opened Meaning
  import opened Standing

  /** The slot the record vacates. */
  predicate Leaves(e: Evidence, port: PortRef, slot: U32, side: SideRef)
  {
    Meaning.Places(e.payload) && e.payload.subject == side && Vacates(e.payload, port, slot)
  }

  /** The slot of the record's owner. */
  function OwnSlot(e: Evidence, port: PortRef, slot: U32): SlotKey { SlotKey(OwnerOf(e), port, slot) }

  /**
    * A Detach that names a slot, or a Move away from one, that is accepted and newer than what the slot
    * holds leaves an empty record of its own generation there, naming the side that left.
    */
  lemma SlotVacated(s: RegistryState, l: Limits, h: nat, e: Evidence, receivedAt: I64, durable: bool, live: bool,
                    port: PortRef, slot: U32, side: SideRef)
    requires Leaves(e, port, slot, side) && e.header.source in s.sources
    requires IsAccepted(IngestRecord(s, l, h, e, receivedAt, durable, live).disposition)
    requires var key := OwnSlot(e, port, slot);
             Has(s.ports, port, key) ==> s.ports[port][key].meta.generation < e.header.generation
    ensures var s' := IngestRecord(s, l, h, e, receivedAt, durable, live).state;
            var key := OwnSlot(e, port, slot);
            && Has(s'.ports, port, key) && s'.ports[port][key].meta == MetaOf(s, e, receivedAt, live)
            && s'.ports[port][key].value == PortValue(e.payload.objectIncarnation, true, side)
  {
    hide IngestRecord, RingAfterWin;
    RecordMeans(s, l, h, e, receivedAt, durable, live, PortKey(OwnSlot(e, port, slot)));
  }

  /** The same of the slot an Attach or a Move fills. */
  lemma SlotFilled(s: RegistryState, l: Limits, h: nat, e: Evidence, receivedAt: I64, durable: bool, live: bool,
                   port: PortRef, slot: U32)
    requires Occupies(e.payload, port, slot) && e.header.source in s.sources
    requires IsAccepted(IngestRecord(s, l, h, e, receivedAt, durable, live).disposition)
    requires var key := OwnSlot(e, port, slot);
             Has(s.ports, port, key) ==> s.ports[port][key].meta.generation < e.header.generation
    ensures var s' := IngestRecord(s, l, h, e, receivedAt, durable, live).state;
            var key := OwnSlot(e, port, slot);
            && Has(s'.ports, port, key) && s'.ports[port][key].meta == MetaOf(s, e, receivedAt, live)
            && s'.ports[port][key].value == PortValue(e.payload.objectIncarnation, false, e.payload.subject)
  {
    hide IngestRecord, RingAfterWin;
    RecordMeans(s, l, h, e, receivedAt, durable, live, PortKey(OwnSlot(e, port, slot)));
  }

  /** The side's own record after a placement newer than what its owner said of the side. */
  lemma SideTold(s: RegistryState, l: Limits, h: nat, e: Evidence, receivedAt: I64, durable: bool, live: bool)
    requires Meaning.Places(e.payload) && e.header.source in s.sources
    requires IsAccepted(IngestRecord(s, l, h, e, receivedAt, durable, live).disposition)
    requires Has(s.subjects, e.payload.subject, OwnerOf(e)) ==>
               s.subjects[e.payload.subject][OwnerOf(e)].meta.generation < e.header.generation
    ensures var s' := IngestRecord(s, l, h, e, receivedAt, durable, live).state;
            && Has(s'.subjects, e.payload.subject, OwnerOf(e))
            && s'.subjects[e.payload.subject][OwnerOf(e)].meta == MetaOf(s, e, receivedAt, live)
            && s'.subjects[e.payload.subject][OwnerOf(e)].value == SideAfter(e.payload)
  {
    hide IngestRecord, RingAfterWin;
    RecordMeans(s, l, h, e, receivedAt, durable, live, SubjectKey(e.payload.subject, OwnerOf(e)));
  }

  // ---- What the port answers then ----

  /** The slot's record, and its side's record, are news to their keys. */
  predicate News(s: RegistryState, e: Evidence, port: PortRef, slot: U32)
    requires Meaning.Places(e.payload)
  {
    var o, key := OwnerOf(e), OwnSlot(e, port, slot);
    && (Has(s.ports, port, key) ==> s.ports[port][key].meta.generation < e.header.generation)
    && (Has(s.subjects, e.payload.subject, o) ==>
          s.subjects[e.payload.subject][o].meta.generation < e.header.generation)
  }

  /** The sender counts, and the object is registered, in service and at the incarnation named. */
  ghost predicate Current(s: RegistryState, e: Evidence)
    requires Meaning.Places(e.payload)
  {
    var x := e.payload.subject.objectId;
    && !Fenced(s, OwnerOf(e)) && ObjectExists(s, x) && LifecycleOf(s, x).action == Present
    && e.payload.objectIncarnation == IncarnationOf(s, x)
  }

  lemma PlacementGround(s: RegistryState, l: Limits, h: nat, e: Evidence, receivedAt: I64, durable: bool, x: Id)
    requires Meaning.Places(e.payload)
    ensures var s' := IngestRecord(s, l, h, e, receivedAt, durable, true).state;
            && (forall o :: Fenced(s', o) == Fenced(s, o)) && ObjectExists(s', x) == ObjectExists(s, x)
            && IncarnationOf(s', x) == IncarnationOf(s, x) && LifecycleOf(s', x) == LifecycleOf(s, x)
  {
    hide IngestRecord, IncarnationOf, LifecycleOf, ObjectExists, Fenced, Interference.SameGround;
    var s' := IngestRecord(s, l, h, e, receivedAt, durable, true).state;
    Interference.PlacementKeepsGround(s, l, h, e, receivedAt, durable);
    Interference.GroundLookups(s, s');
    Interference.GroundLifecycle(s, s', x);
  }

  /**
    * The slot that an accepted Attach or Move fills is live afterwards if and only if the sender counts
    * and the object is registered, in service and at the incarnation the record names.
    */
  lemma FilledShows(s: RegistryState, l: Limits, h: nat, e: Evidence, receivedAt: I64, durable: bool, policy: Policy,
                    port: PortRef, slot: U32)
    requires Meaning.Places(e.payload) && Occupies(e.payload, port, slot) && e.header.source in s.sources
    requires IsAccepted(IngestRecord(s, l, h, e, receivedAt, durable, true).disposition) && News(s, e, port, slot)
    ensures Live(IngestRecord(s, l, h, e, receivedAt, durable, true).state, policy, port, OwnSlot(e, port, slot)) <==>
            Current(s, e)
  {
    hide IngestRecord, IncarnationOf, LifecycleOf, ObjectExists, Fenced;
    SlotFilled(s, l, h, e, receivedAt, durable, true, port, slot);
    SideTold(s, l, h, e, receivedAt, durable, true);
    PlacementGround(s, l, h, e, receivedAt, durable, e.payload.subject.objectId);
  }

  /** The same of the slot that a Detach or a Move vacates. */
  lemma VacatedShows(s: RegistryState, l: Limits, h: nat, e: Evidence, receivedAt: I64, durable: bool, policy: Policy,
                     port: PortRef, slot: U32, side: SideRef)
    requires Leaves(e, port, slot, side) && e.header.source in s.sources
    requires IsAccepted(IngestRecord(s, l, h, e, receivedAt, durable, true).disposition)
    requires var key := OwnSlot(e, port, slot);
             Has(s.ports, port, key) ==> s.ports[port][key].meta.generation < e.header.generation
    ensures Live(IngestRecord(s, l, h, e, receivedAt, durable, true).state, policy, port, OwnSlot(e, port, slot)) <==>
            Current(s, e)
  {
    hide IngestRecord, IncarnationOf, LifecycleOf, ObjectExists, Fenced;
    SlotVacated(s, l, h, e, receivedAt, durable, true, port, slot, side);
    PlacementGround(s, l, h, e, receivedAt, durable, side.objectId);
  }

  /** A record that fills no slot of the port brings no other slot of it to life. */
  lemma OthersAsBefore(s: RegistryState, l: Limits, h: nat, e: Evidence, receivedAt: I64, durable: bool,
                       policy: Policy, port: PortRef, slot: U32, side: SideRef, key: SlotKey)
    requires Leaves(e, port, slot, side) && e.header.source in s.sources && key.port == port
    requires !(e.payload.Move? && e.payload.to == port) && key != OwnSlot(e, port, slot)
    requires Live(IngestRecord(s, l, h, e, receivedAt, durable, true).state, policy, port, key)
    ensures Live(s, policy, port, key)
    ensures IngestRecord(s, l, h, e, receivedAt, durable, true).state.ports[port][key].meta == s.ports[port][key].meta
  {
    hide IngestRecord, IncarnationOf, LifecycleOf, ObjectExists, Fenced, RingAfterWin, RingAfterLoss;
    var s' := IngestRecord(s, l, h, e, receivedAt, durable, true).state;
    RecordMeans(s, l, h, e, receivedAt, durable, true, PortKey(key));
    assert Says(e, PortKey(key)).None?;
    assert Cell(s'.ports, port, key) == Cell(s.ports, port, key) by { SameCell(s, s', key); }
    var f := s.ports[port][key];
    PlacementGround(s, l, h, e, receivedAt, durable, f.value.subject.objectId);
    if !f.value.empty { SideAsBefore(s, l, h, e, receivedAt, durable, port, f.value.subject, key.owner); }
  }

  lemma SameCell(s: RegistryState, t: RegistryState, key: SlotKey)
    requires At(t, PortKey(key)) == At(s, PortKey(key))
    ensures Cell(t.ports, key.port, key) == Cell(s.ports, key.port, key)
  {
    var f, g := Cell(s.ports, key.port, key), Cell(t.ports, key.port, key);
    if f.Some? && g.Some? {
      var a, b := At(s, PortKey(key)).value, At(t, PortKey(key)).value;
      assert a.meta == b.meta && a.value == b.value && a.superseded == b.superseded && a.dropped == b.dropped;
      assert f.value == Folded(a.meta, a.value.portValue, a.superseded, a.dropped);
      assert g.value == Folded(b.meta, b.value.portValue, b.superseded, b.dropped);
    }
  }

  /** A side said to sit in a port the record does not fill was said to sit there before. */
  lemma SideAsBefore(s: RegistryState, l: Limits, h: nat, e: Evidence, receivedAt: I64, durable: bool, port: PortRef,
                     side: SideRef, o: Owner)
    requires Meaning.Places(e.payload) && e.header.source in s.sources
    requires !(e.payload.Move? && e.payload.to == port) && !e.payload.Attach?
    requires var s' := IngestRecord(s, l, h, e, receivedAt, durable, true).state;
             && Has(s'.subjects, side, o) && s'.subjects[side][o].value.attached
             && s'.subjects[side][o].value.port == port
    ensures var s' := IngestRecord(s, l, h, e, receivedAt, durable, true).state;
            && Has(s.subjects, side, o) && s.subjects[side][o].value == s'.subjects[side][o].value
            && s.subjects[side][o].meta == s'.subjects[side][o].meta
  {
    hide IngestRecord, RingAfterWin, RingAfterLoss;
    RecordMeans(s, l, h, e, receivedAt, durable, true, SubjectKey(side, o));
  }

  /**
    * A detachment that is accepted, from a sender that counts and of an object in service, leaves the
    * port empty if no other live slot of the port has its authority or a higher one.  So does a move to
    * another port.
    */
  lemma VacatedIsEmpty(s: RegistryState, l: Limits, h: nat, e: Evidence, receivedAt: I64, durable: bool,
                       policy: Policy, port: PortRef, slot: U32, side: SideRef)
    requires Bounds.ShapeOk(s) && Leaves(e, port, slot, side) && e.header.source in s.sources && Current(s, e)
    requires !(e.payload.Move? && e.payload.to == port)
    requires IsAccepted(IngestRecord(s, l, h, e, receivedAt, durable, true).disposition)
    requires var key := OwnSlot(e, port, slot);
             Has(s.ports, port, key) ==> s.ports[port][key].meta.generation < e.header.generation
    requires forall key :: Live(s, policy, port, key) && key != OwnSlot(e, port, slot) ==>
               Below(s.ports[port][key].meta.authority, s.sources[e.header.source].descriptor.authority)
    ensures DerivePort(IngestRecord(s, l, h, e, receivedAt, durable, true).state, l, policy, port).state == Empty
  {
    hide IngestRecord, Live, DerivePort, AuthorityRank, Current, Bounds.ShapeOk;
    var s', own := IngestRecord(s, l, h, e, receivedAt, durable, true).state, OwnSlot(e, port, slot);
    SlotVacated(s, l, h, e, receivedAt, durable, true, port, slot, side);
    VacatedShows(s, l, h, e, receivedAt, durable, policy, port, slot, side);
    assert Bounds.SlotsFiled(s'.ports) by {
      Bounds.ShapeIngest(s, l, h, e, receivedAt, durable, true);
      Overflow.ShapeFiled(s');
    }
    forall key | Live(s', policy, port, key)
      ensures Has(s'.ports, port, key)
    {
      LiveStored(s', policy, port, key);
    }
    forall key | Live(s', policy, port, key) && key != own
      ensures Below(s'.ports[port][key].meta.authority, s'.ports[port][own].meta.authority)
    {
      OthersAsBefore(s, l, h, e, receivedAt, durable, policy, port, slot, side, key);
    }
    assert Leading(s', policy, port, own);
    StateExactly(s', l, policy, port);
  }

  lemma LiveStored(s: RegistryState, policy: Policy, port: PortRef, key: SlotKey)
    requires Live(s, policy, port, key)
    ensures Has(s.ports, port, key)
  {
  }
}
