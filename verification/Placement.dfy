// A port record and the subject record behind it.
//
// One Attach or Move writes the subject's key and the destination slot's key, and each
// key resolves on its own.  On every run, an occupied slot is never ahead of its
// subject's record, and when the two stand at one generation they are one record.

module Placement {
  import opened Words
  import opened Evidence
  import opened State
  import opened Fold
  import opened Ingest
  import opened Sessions
  import opened Keys
  import opened Effects
  import opened Invariants

  function SlotCell(s: RegistryState, key: SlotKey): Option<Folded<PortValue>> { Cell(s.ports, key.port, key) }
  function SideCell(s: RegistryState, side: SideRef, o: Owner): Option<Folded<SubjectValue>>
  {
    Cell(s.subjects, side, o)
  }

  /** An occupied slot has its subject's record at its own generation or beyond; at its own, it is the same record. */
  ghost predicate Behind(s: RegistryState, key: SlotKey)
  {
    var f := SlotCell(s, key);
    f.Some? && !f.value.value.empty ==>
      var g := SideCell(s, f.value.value.subject, key.owner);
      && g.Some? && g.value.meta.generation >= f.value.meta.generation
      && (g.value.meta.generation == f.value.meta.generation ==> g.value.meta == f.value.meta)
  }

  /** A side asserted attached has a record at that slot, at its own generation or beyond. */
  ghost predicate Ahead(s: RegistryState, side: SideRef, o: Owner)
  {
    var g := SideCell(s, side, o);
    g.Some? && g.value.value.attached ==>
      var f := SlotCell(s, SlotKey(o, g.value.value.port, g.value.value.slot));
      f.Some? && f.value.meta.generation >= g.value.meta.generation
  }

  ghost predicate PlacementOk(s: RegistryState)
  {
    && (forall key :: Behind(s, key))
    && (forall side, o :: Ahead(s, side, o))
  }

  /** The typed cells are what the keyed view shows. */
  lemma CellsAt(s: RegistryState, key: SlotKey, side: SideRef, o: Owner)
    ensures var f := SlotCell(s, key);
            At(s, PortKey(key)) ==
            if f.Some? then Some(Folded(f.value.meta, PortClaim(key, f.value.value), f.value.superseded,
              f.value.dropped)) else None
    ensures var g := SideCell(s, side, o);
            At(s, SubjectKey(side, o)) ==
            if g.Some? then Some(Folded(g.value.meta, SubjectClaim(side, g.value.value), g.value.superseded,
              g.value.dropped)) else None
  {
  }

  /** An occupied slot is claimed only together with the side that occupies it. */
  lemma OccupantClaimed(e: Evidence, key: SlotKey, v: PortValue)
    requires PortClaim(key, v) in ClaimsOf(e) && !v.empty
    ensures exists w ::
            SubjectClaim(v.subject, w) in ClaimsOf(e) && w.attached && w.port == key.port && w.slot == key.slot
    ensures key.owner == OwnerOf(e)
  {
    match e.payload
    case Attach(subject, port, incarnation, slot) =>
      var w := SubjectValue(incarnation, true, port, slot, false, NO_PORT);
      assert SubjectClaim(v.subject, w) == ClaimsOf(e)[0];
    case Move(subject, incarnation, from, to, fromSlot, toSlot) =>
      var w := SubjectValue(incarnation, true, to, toSlot, true, from);
      assert SubjectClaim(v.subject, w) == ClaimsOf(e)[0];
    case _ =>
  }

  /** An attached side is claimed only together with the slot it occupies. */
  lemma DestinationClaimed(e: Evidence, side: SideRef, w: SubjectValue)
    requires SubjectClaim(side, w) in ClaimsOf(e) && w.attached
    ensures PortClaim(SlotKey(OwnerOf(e), w.port, w.slot), PortValue(w.objectIncarnation, false, side)) in ClaimsOf(e)
  {
    match e.payload
    case Attach(_, _, _, _) => assert ClaimsOf(e)[1] ==
      PortClaim(SlotKey(OwnerOf(e), w.port, w.slot), PortValue(w.objectIncarnation, false, side));
    case Move(_, _, _, _, _, _) => assert ClaimsOf(e)[1] ==
      PortClaim(SlotKey(OwnerOf(e), w.port, w.slot), PortValue(w.objectIncarnation, false, side));
    case _ =>
  }

  /** An applied record collides nowhere. */
  lemma AppliedResolves(s: RegistryState, l: Limits, e: Evidence, receivedAt: I64, durable: bool, live: bool, c: Claim)
    requires Applied(s, l, e, receivedAt, durable, live) && c in ClaimsOf(e)
    ensures OutcomeOf(s, c, MetaOf(s, e, receivedAt, live)) != Collision
  {
    hide OutcomeOf, ClaimsOf, Decide, ValidShape, KeyOf;
    var meta := MetaOf(s, e, receivedAt, live);
    assert meta.owner == OwnerOf(e);
    DecisionCovers(s, l, e, meta);
    AppliedAccepted(s, l, e, meta);
    assert Resolves(s, e, Decide(s, l, e, meta).staged, c);
  }

  /** Where an applied placement claim leaves its key: at the record's generation or beyond. */
  lemma ClaimLands(s: RegistryState, l: Limits, h: nat, e: Evidence, receivedAt: I64, durable: bool, live: bool,
                   c: Claim)
    requires Applied(s, l, e, receivedAt, durable, live) && c in ClaimsOf(e) && (c.SubjectClaim? || c.PortClaim?)
    ensures var k := KeyOf(c, OwnerOf(e));
            var f, g := At(s, k), At(IngestRecord(s, l, h, e, receivedAt, durable, live).state, k);
            && g.Some? && g.value.meta.generation >= e.header.generation
            && (g.value.meta.generation == e.header.generation ==>
                  g.value.meta == MetaOf(s, e, receivedAt, live)
                    || (f.Some? && f.value.meta.generation == e.header.generation && f.value.value == c))
  {
    hide IngestRecord, At, ClaimsOf, Decide, ValidShape, KeyOf, OutcomeOf, RingAfterWin, RingAfterLoss;
    var meta := MetaOf(s, e, receivedAt, live);
    assert meta.owner == OwnerOf(e);
    var k := KeyOf(c, OwnerOf(e));
    assert !e.payload.ReincarnateObject? by { PlacementKinds(e, c); }
    AppliedResolves(s, l, e, receivedAt, durable, live, c);
    IngestAt(s, l, h, e, receivedAt, durable, live, k);
    assert Find(ClaimsOf(e), OwnerOf(e), k) == Some(c) by {
      var d := Find(ClaimsOf(e), OwnerOf(e), k);
      OneClaimPerKey(e, c, d.value);
    }
    OutcomeByKey(s, c, meta);
  }

  lemma BehindIngest(s: RegistryState, l: Limits, h: nat, e: Evidence, receivedAt: I64, durable: bool, key: SlotKey)
    requires PlacementOk(s)
    ensures Behind(IngestRecord(s, l, h, e, receivedAt, durable, true).state, key)
  {
    hide IngestRecord, At, ClaimsOf, Decide, ValidShape, SlotCell, SideCell;
    var s' := IngestRecord(s, l, h, e, receivedAt, durable, true).state;
    var f' := SlotCell(s', key);
    if f'.Some? && !f'.value.value.empty {
      var side, o := f'.value.value.subject, key.owner;
      CellsAt(s, key, side, o);
      CellsAt(s', key, side, o);
      IngestOrigin(s, l, h, e, receivedAt, durable, true, PortKey(key));
      IngestOrigin(s, l, h, e, receivedAt, durable, true, SubjectKey(side, o));
      if KeepsWinner(At(s, PortKey(key)), At(s', PortKey(key))) {
        assert Behind(s, key);
      } else {
        OccupantClaimed(e, key, f'.value.value);
        var w :| SubjectClaim(side, w) in ClaimsOf(e) && w.attached && w.port == key.port && w.slot == key.slot;
        ClaimLands(s, l, h, e, receivedAt, durable, true, SubjectClaim(side, w));
        assert Ahead(s, side, o);
      }
    }
  }

  lemma AheadIngest(s: RegistryState, l: Limits, h: nat, e: Evidence, receivedAt: I64, durable: bool, side: SideRef,
                    o: Owner)
    requires PlacementOk(s)
    ensures Ahead(IngestRecord(s, l, h, e, receivedAt, durable, true).state, side, o)
  {
    hide IngestRecord, At, ClaimsOf, Decide, ValidShape, SlotCell, SideCell;
    var s' := IngestRecord(s, l, h, e, receivedAt, durable, true).state;
    var g' := SideCell(s', side, o);
    if g'.Some? && g'.value.value.attached {
      var key := SlotKey(o, g'.value.value.port, g'.value.value.slot);
      CellsAt(s, key, side, o);
      CellsAt(s', key, side, o);
      IngestOrigin(s, l, h, e, receivedAt, durable, true, PortKey(key));
      IngestOrigin(s, l, h, e, receivedAt, durable, true, SubjectKey(side, o));
      if KeepsWinner(At(s, SubjectKey(side, o)), At(s', SubjectKey(side, o))) {
        assert Ahead(s, side, o);
      } else {
        DestinationClaimed(e, side, g'.value.value);
        ClaimsOwned(e, SubjectClaim(side, g'.value.value));
        ClaimLands(s, l, h, e, receivedAt, durable, true,
          PortClaim(key, PortValue(g'.value.value.objectIncarnation, false, side)));
      }
    }
  }

  lemma ClearCells(s: RegistryState, key: SlotKey, side: SideRef, o: Owner)
    ensures var f := SlotCell(s, key);
            SlotCell(ClearVolatile(s), key) == if f.Some? then Some(ClearFolded(f.value)) else None
    ensures var g := SideCell(s, side, o);
            SideCell(ClearVolatile(s), side, o) == if g.Some? then Some(ClearFolded(g.value)) else None
  {
  }

  lemma PlacementRestart(s: RegistryState, bookkeeping: map<Owner, SessionRecord>)
    requires PlacementOk(s)
    ensures PlacementOk(ClearVolatile(s).(sessions := bookkeeping))
  {
    hide SlotCell, SideCell, ClearVolatile;
    var s' := ClearVolatile(s).(sessions := bookkeeping);
    forall key
      ensures Behind(s', key)
    {
      CellsIgnoreCatalogue(ClearVolatile(s), s');
      var f := SlotCell(s, key);
      ClearCells(s, key, SideRef(0, 0), key.owner);
      if f.Some? {
        assert Behind(s, key);
        ClearCells(s, key, f.value.value.subject, key.owner);
      }
    }
    forall side, o
      ensures Ahead(s', side, o)
    {
      CellsIgnoreCatalogue(ClearVolatile(s), s');
      var g := SideCell(s, side, o);
      ClearCells(s, SlotKey(o, NO_PORT, 0), side, o);
      if g.Some? {
        assert Ahead(s, side, o);
        ClearCells(s, SlotKey(o, g.value.value.port, g.value.value.slot), side, o);
      }
    }
  }

  lemma CellsIgnoreCatalogue(s: RegistryState, t: RegistryState)
    requires t.ports == s.ports && t.subjects == s.subjects
    ensures forall key :: SlotCell(t, key) == SlotCell(s, key)
    ensures forall side, o :: SideCell(t, side, o) == SideCell(s, side, o)
  {
  }

  lemma PlacementStep(s: RegistryState, l: Limits, h: nat, ev: Event)
    requires PlacementOk(s)
    ensures PlacementOk(Step(s, l, h, ev))
  {
    hide IngestRecord, ClearVolatile, OpenSession, Behind, Ahead;
    match ev
    case Ingesting(e, receivedAt, durable) =>
      forall key { BehindIngest(s, l, h, e, receivedAt, durable, key); }
      forall side, o { AheadIngest(s, l, h, e, receivedAt, durable, side, o); }
    case Restarting(bookkeeping) => PlacementRestart(s, bookkeeping);
    case Opening(d, incarnation, openedAt, durable) =>
      OpenEffect(s, l, d, incarnation, openedAt, durable);
      PlacementIgnoresCatalogue(s, Step(s, l, h, ev));
    case Closing(o, durable) => PlacementIgnoresCatalogue(s, Step(s, l, h, ev));
  }

  lemma PlacementIgnoresCatalogue(s: RegistryState, t: RegistryState)
    requires PlacementOk(s) && t.ports == s.ports && t.subjects == s.subjects
    ensures PlacementOk(t)
  {
    hide SlotCell, SideCell;
    CellsIgnoreCatalogue(s, t);
    forall key
      ensures Behind(t, key)
    {
      assert Behind(s, key);
    }
    forall side, o
      ensures Ahead(t, side, o)
    {
      assert Ahead(s, side, o);
    }
  }
}
