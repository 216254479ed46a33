// Bounded growth: on every run the tables, the rings and the values in them stay within
// the configured limits, and the tables keep their shape.

module Bounds {
  import opened Words
  import opened Evidence
  import opened Ordering
  import opened State
  import opened Fold
  import opened Ingest
  import opened Sessions
  import opened Keys
  import opened Effects
  import opened Invariants

  // ---- Rings ----

  /** A ring holds at most h records, all of the key's own owner. */
  ghost predicate RingOk(k: Key, f: Folded<Claim>, h: nat)
  {
    && |f.superseded| <= h
    && forall a :: a in f.superseded ==> a.owner == KeyOwner(k)
  }

  ghost predicate RingsOk(s: RegistryState, h: nat)
  {
    forall k :: At(s, k).Some? ==> RingOk(k, At(s, k).value, h)
  }

  lemma RetainKeeps(ring: seq<Attestation>, dropped: U32, h: nat)
    ensures |Retain(ring, dropped, h).entries| <= h
    ensures forall a :: a in Retain(ring, dropped, h).entries ==> a in ring
  {
    SortByMembers(ring, RingRank);
  }

  lemma RingIngest(s: RegistryState, l: Limits, h: nat, e: Evidence, receivedAt: I64, durable: bool, k: Key)
    requires RingsOk(s, h) && RecordsOk(s)
    ensures var g := At(IngestRecord(s, l, h, e, receivedAt, durable, true).state, k);
            g.Some? ==> RingOk(k, g.value, h)
  {
    hide IngestRecord, At, ClaimsOf, Decide, ValidShape, KeyOf, OutcomeOf, Retain, Stale;
    IngestAt(s, l, h, e, receivedAt, durable, true, k);
    var f := At(s, k);
    var c := Find(ClaimsOf(e), OwnerOf(e), k);
    if Applied(s, l, e, receivedAt, durable, true) && c.Some? && f.Some? {
      var meta := MetaOf(s, e, receivedAt, true);
      ClaimsOwned(e, c.value);
      var ring, dropped := f.value.superseded, f.value.dropped;
      RetainKeeps(ring, dropped, h);
      RetainKeeps(ring + [f.value.meta], dropped, h);
      RetainKeeps(ring + [meta], dropped, h);
    }
  }

  lemma RingClear(k: Key, f: Folded<Claim>, h: nat)
    requires RingOk(k, f, h)
    ensures RingOk(k, ClearFolded(f), h)
  {
    forall a | a in ClearFolded(f).superseded
      ensures a.owner == KeyOwner(k)
    {
      var i :| 0 <= i < |f.superseded| && ClearFolded(f).superseded[i] == a;
      assert f.superseded[i] in f.superseded;
    }
  }

  lemma RingsStep(s: RegistryState, l: Limits, h: nat, ev: Event)
    requires RingsOk(s, h) && RecordsOk(s)
    ensures RingsOk(Step(s, l, h, ev), h)
  {
    hide IngestRecord, ClearVolatile, At, OpenSession, RingOk, ClearFolded;
    var s' := Step(s, l, h, ev);
    forall k | At(s', k).Some?
      ensures RingOk(k, At(s', k).value, h)
    {
      match ev
      case Ingesting(e, receivedAt, durable) => RingIngest(s, l, h, e, receivedAt, durable, k);
      case Restarting(bookkeeping) =>
        ClearAt(s, k);
        AtIgnoresSessions(ClearVolatile(s), bookkeeping, k);
        if At(s, k).Some? { RingClear(k, At(s, k).value, h); }
      case Opening(d, incarnation, openedAt, durable) =>
        OpenEffect(s, l, d, incarnation, openedAt, durable);
        AtIgnoresCatalogue(s, s'.sources, s'.sessions, k);
      case Closing(_, _) => AtIgnoresSessions(s, s'.sessions, k);
    }
  }

  // ---- Values ----

  /** What the shape check guarantees of a stored value. */
  predicate ClaimOk(c: Claim, l: Limits)
  {
    match c
    case ObjectClaim(x, d) => d.id == x && ValidObjectDescriptor(d, l)
    case EndpointClaim(x, d) => d.id == x && ValidEndpointDescriptor(d, l)
    case SubjectClaim(side, v) => v.objectIncarnation != 0
    case PortClaim(key, v) => v.objectIncarnation != 0 && key.slot < l.maxPortAttachments
    case LifecycleClaim(_, v) => v.objectIncarnation != 0 && Fits(v.reason, l.maxStringBytes)
    case ReincarnationClaim(_, v) =>
      v.from != 0 && v.target == TargetOf(v.from) && Fits(v.serial, l.maxStringBytes)
        && Fits(v.reason, l.maxStringBytes)
    case ObjectCapabilityClaim(_, v) => Fits(v.code, l.maxCodeBytes)
    case PortCapabilityClaim(_, v) => ValidPortCapability(v, l)
  }

  ghost predicate ValuesOk(s: RegistryState, l: Limits)
  {
    forall k :: At(s, k).Some? ==> ClaimOk(At(s, k).value.value, l)
  }

  lemma ShapedClaims(e: Evidence, l: Limits, c: Claim)
    requires ValidShape(e, l) && c in ClaimsOf(e)
    ensures ClaimOk(c, l)
  {
  }

  lemma ValuesStep(s: RegistryState, l: Limits, h: nat, ev: Event)
    requires ValuesOk(s, l)
    ensures ValuesOk(Step(s, l, h, ev), l)
  {
    hide Step, At, ClaimOk;
    forall k | At(Step(s, l, h, ev), k).Some?
      ensures ClaimOk(At(Step(s, l, h, ev), k).value.value, l)
    {
      ValueStep(s, l, h, ev, k);
    }
  }

  lemma ValueIngest(s: RegistryState, l: Limits, h: nat, e: Evidence, receivedAt: I64, durable: bool, k: Key)
    requires ValuesOk(s, l) && At(IngestRecord(s, l, h, e, receivedAt, durable, true).state, k).Some?
    ensures ClaimOk(At(IngestRecord(s, l, h, e, receivedAt, durable, true).state, k).value.value, l)
  {
    hide IngestRecord, At, ClaimOk, ClaimsOf, ValidShape, Decide;
    var f := At(IngestRecord(s, l, h, e, receivedAt, durable, true).state, k);
    IngestOrigin(s, l, h, e, receivedAt, durable, true, k);
    if !KeepsWinner(At(s, k), f) { ShapedClaims(e, l, f.value.value); }
  }

  lemma ValueStep(s: RegistryState, l: Limits, h: nat, ev: Event, k: Key)
    requires ValuesOk(s, l) && At(Step(s, l, h, ev), k).Some?
    ensures ClaimOk(At(Step(s, l, h, ev), k).value.value, l)
  {
    hide IngestRecord, ClearVolatile, At, OpenSession, ClaimOk;
    var s' := Step(s, l, h, ev);
    match ev
    case Ingesting(e, receivedAt, durable) => ValueIngest(s, l, h, e, receivedAt, durable, k);
    case Restarting(bookkeeping) =>
      ClearAt(s, k);
      AtIgnoresSessions(ClearVolatile(s), bookkeeping, k);
    case Opening(d, incarnation, openedAt, durable) =>
      OpenEffect(s, l, d, incarnation, openedAt, durable);
      AtIgnoresCatalogue(s, s'.sources, s'.sessions, k);
    case Closing(_, _) => AtIgnoresSessions(s, s'.sessions, k);
  }

  // ---- Shape of the tables ----

  /** No group is empty. */
  ghost predicate NoEmptyGroup<P, K, V>(t: Table<P, K, V>)
  {
    forall p :: p in t ==> t[p] != map[]
  }

  /** A slot's record lives under the port its key names. */
  ghost predicate SlotsFiled(t: Table<PortRef, SlotKey, PortValue>)
  {
    forall p, key :: p in t && key in t[p] ==> key.port == p
  }

  ghost predicate ShapeOk(s: RegistryState)
  {
    && SlotsFiled(s.ports)
    && NoEmptyGroup(s.objects) && NoEmptyGroup(s.endpoints) && NoEmptyGroup(s.subjects) && NoEmptyGroup(s.ports)
    && NoEmptyGroup(s.lifecycles) && NoEmptyGroup(s.reincarnations)
    && NoEmptyGroup(s.objectCapabilities) && NoEmptyGroup(s.portCapabilities)
  }

  lemma PutKeepsGroups<P, K, V>(t: Table<P, K, V>, p: P, k: K, f: Folded<V>)
    requires NoEmptyGroup(t)
    ensures NoEmptyGroup(Put(t, p, k, f))
  {
    assert k in Put(t, p, k, f)[p];
  }

  lemma FoldKeepsGroups<P, K, V>(t: Table<P, K, V>, p: P, k: K, meta: Attestation, value: V, h: nat)
    requires NoEmptyGroup(t)
    ensures NoEmptyGroup(FoldIn(t, p, k, meta, value, h)) && NoEmptyGroup(FoldLosingIn(t, p, k, meta, h))
  {
    PutKeepsGroups(t, p, k, if Has(t, p, k) then FoldWin(t[p][k], meta, value, h) else Folded(meta, value, [], 0));
    if Has(t, p, k) { PutKeepsGroups(t, p, k, FoldLose(t[p][k], meta, h)); }
  }

  lemma FoldKeepsFiling(t: Table<PortRef, SlotKey, PortValue>, key: SlotKey, meta: Attestation, value: PortValue,
                        h: nat)
    requires SlotsFiled(t)
    ensures SlotsFiled(FoldIn(t, key.port, key, meta, value, h)) && SlotsFiled(FoldLosingIn(t, key.port, key, meta, h))
  {
    hide FoldWin, FoldLose;
  }

  lemma ShapeClaim(s: RegistryState, c: Claim, meta: Attestation, h: nat)
    requires ShapeOk(s)
    ensures ShapeOk(WriteClaim(s, c, meta, h)) && ShapeOk(RingClaim(s, c, meta, h))
  {
    hide FoldIn, FoldLosingIn, NoEmptyGroup, SlotsFiled;
    var o := meta.owner;
    match c
    case ObjectClaim(x, v) => FoldKeepsGroups(s.objects, x, o, meta, v, h);
    case EndpointClaim(x, v) => FoldKeepsGroups(s.endpoints, x, o, meta, v, h);
    case SubjectClaim(x, v) => FoldKeepsGroups(s.subjects, x, o, meta, v, h);
    case PortClaim(x, v) =>
      FoldKeepsGroups(s.ports, x.port, x, meta, v, h);
      FoldKeepsFiling(s.ports, x, meta, v, h);
    case LifecycleClaim(x, v) => FoldKeepsGroups(s.lifecycles, x, o, meta, v, h);
    case ReincarnationClaim(x, v) => FoldKeepsGroups(s.reincarnations, x, o, meta, v, h);
    case ObjectCapabilityClaim(x, v) => FoldKeepsGroups(s.objectCapabilities, x, o, meta, v, h);
    case PortCapabilityClaim(x, v) => FoldKeepsGroups(s.portCapabilities, x, o, meta, v, h);
  }

  lemma {:induction false} ShapeClaims(s: RegistryState, cs: seq<Claim>, meta: Attestation, h: nat)
    requires ShapeOk(s)
    ensures ShapeOk(WriteClaims(s, cs, meta, h)) && ShapeOk(RingClaims(s, cs, meta, h))
    decreases |cs|
  {
    hide WriteClaim, RingClaim, ShapeOk;
    if cs != [] {
      ShapeClaim(s, cs[0], meta, h);
      ShapeClaims(WriteClaim(s, cs[0], meta, h), cs[1..], meta, h);
      ShapeClaims(RingClaim(s, cs[0], meta, h), cs[1..], meta, h);
    }
  }

  lemma ShapeIngest(s: RegistryState, l: Limits, h: nat, e: Evidence, receivedAt: I64, durable: bool, live: bool)
    requires ShapeOk(s)
    ensures ShapeOk(IngestRecord(s, l, h, e, receivedAt, durable, live).state)
  {
    hide Decide, WriteClaims, RingClaims, ValidShape, IngestRecord, NoEmptyGroup, SlotsFiled;
    IngestTables(s, l, h, e, receivedAt, durable, live);
    if Applied(s, l, e, receivedAt, durable, live) {
      var staged := Decide(s, l, e, MetaOf(s, e, receivedAt, live)).staged;
      ShapeClaims(s, staged.rings, staged.meta, h);
      ShapeClaims(RingClaims(s, staged.rings, staged.meta, h), staged.writes, staged.meta, h);
    }
  }

  lemma ClearKeepsGroups<P, K, V>(t: Table<P, K, V>)
    requires NoEmptyGroup(t)
    ensures NoEmptyGroup(ClearTable(t)) && ClearTable(t).Keys == t.Keys
    ensures forall p :: p in t ==> ClearTable(t)[p].Keys == t[p].Keys
  {
    forall p | p in t
      ensures ClearTable(t)[p] != map[]
    {
      var k :| k in t[p];
      assert k in ClearTable(t)[p];
    }
  }

  lemma ShapeClear(s: RegistryState)
    requires ShapeOk(s)
    ensures ShapeOk(ClearVolatile(s))
  {
    hide NoEmptyGroup, ClearTable, ClearSessions;
    ClearKeepsGroups(s.objects);
    ClearKeepsGroups(s.endpoints);
    ClearKeepsGroups(s.subjects);
    ClearKeepsGroups(s.ports);
    ClearKeepsGroups(s.lifecycles);
    ClearKeepsGroups(s.reincarnations);
    ClearKeepsGroups(s.objectCapabilities);
    ClearKeepsGroups(s.portCapabilities);
  }

  lemma ShapeStep(s: RegistryState, l: Limits, h: nat, ev: Event)
    requires ShapeOk(s)
    ensures ShapeOk(Step(s, l, h, ev))
  {
    hide IngestRecord, ClearVolatile, OpenSession, NoEmptyGroup, SlotsFiled;
    match ev
    case Ingesting(e, receivedAt, durable) => ShapeIngest(s, l, h, e, receivedAt, durable, true);
    case Restarting(_) => ShapeClear(s);
    case Opening(d, incarnation, openedAt, durable) => OpenEffect(s, l, d, incarnation, openedAt, durable);
    case Closing(_, _) =>
  }

  // ---- Sizes ----

  ghost predicate SizesOk(s: RegistryState, l: Limits)
  {
    && |s.objects| <= l.maxObjects && |s.endpoints| <= l.maxEndpoints && |s.sources| <= l.maxSources
    && forall p :: p in s.ports ==> |s.ports[p]| <= l.maxClaimsPerPort + 1
  }

  lemma MapSize<K, V>(m: map<K, V>)
    ensures |m| == |m.Keys|
  {
  }

  lemma SubsetSize<T>(a: set<T>, b: set<T>)
    requires a <= b
    ensures |a| <= |b|
  {
    assert b == a + (b - a);
  }

  /** A registered object, after a record, was registered before it or is what the record registers. */
  lemma ObjectsGrow(s: RegistryState, l: Limits, h: nat, e: Evidence, receivedAt: I64, durable: bool, live: bool, x: Id)
    requires ShapeOk(s)
    requires x in IngestRecord(s, l, h, e, receivedAt, durable, live).state.objects && x !in s.objects
    ensures e.payload.RegisterObject? && e.payload.objectDescriptor.id == x && |s.objects| < l.maxObjects
  {
    hide IngestRecord, ClaimsOf, ValidShape, Decide, LabelConflict;
    var s' := IngestRecord(s, l, h, e, receivedAt, durable, live).state;
    ShapeIngest(s, l, h, e, receivedAt, durable, live);
    var o :| o in s'.objects[x];
    var k := ObjectKey(x, o);
    IngestOrigin(s, l, h, e, receivedAt, durable, live, k);
    RegistrationKinds(e, At(s', k).value.value);
    RegistrationChecked(s, l, e, MetaOf(s, e, receivedAt, live));
  }

  lemma EndpointsGrow(s: RegistryState, l: Limits, h: nat, e: Evidence, receivedAt: I64, durable: bool, live: bool,
                      x: Id)
    requires ShapeOk(s)
    requires x in IngestRecord(s, l, h, e, receivedAt, durable, live).state.endpoints && x !in s.endpoints
    ensures e.payload.RegisterEndpoint? && e.payload.endpointDescriptor.id == x && |s.endpoints| < l.maxEndpoints
  {
    hide IngestRecord, ClaimsOf, ValidShape, Decide, LabelConflict;
    var s' := IngestRecord(s, l, h, e, receivedAt, durable, live).state;
    ShapeIngest(s, l, h, e, receivedAt, durable, live);
    var o :| o in s'.endpoints[x];
    var k := EndpointKey(x, o);
    IngestOrigin(s, l, h, e, receivedAt, durable, live, k);
    RegistrationKinds(e, At(s', k).value.value);
    RegistrationChecked(s, l, e, MetaOf(s, e, receivedAt, live));
  }

  lemma RegistrationKinds(e: Evidence, c: Claim)
    requires c in ClaimsOf(e)
    ensures c.ObjectClaim? ==> e.payload.RegisterObject? && e.payload.objectDescriptor.id == c.target
    ensures c.EndpointClaim? ==> e.payload.RegisterEndpoint? && e.payload.endpointDescriptor.id == c.target
  {
  }

  lemma RegistrationChecked(s: RegistryState, l: Limits, e: Evidence, meta: Attestation)
    requires Decide(s, l, e, meta).staged.apply
    ensures e.payload.RegisterObject? && e.payload.objectDescriptor.id !in s.objects ==> |s.objects| < l.maxObjects
    ensures e.payload.RegisterEndpoint? && e.payload.endpointDescriptor.id !in s.endpoints ==>
            |s.endpoints| < l.maxEndpoints
  {
    hide LabelConflict, IncarnationOf, PortExists;
  }

  /** The slots of port p that a record claims. */
  ghost function ClaimedSlots(e: Evidence, p: PortRef): set<SlotKey>
  {
    var o := OwnerOf(e);
    match e.payload
    case Attach(_, port, _, slot) => if port == p then {SlotKey(o, p, slot)} else {}
    case Detach(_, _, hasFromPort, fromPort, slot) => if hasFromPort && fromPort == p then {SlotKey(o, p, slot)} else {}
    case Move(_, _, from, to, fromSlot, toSlot) =>
      (if to == p then {SlotKey(o, p, toSlot)} else {}) + (if from == p then {SlotKey(o, p, fromSlot)} else {})
    case _ => {}
  }

  lemma ClaimedSlotsSize(e: Evidence, p: PortRef)
    ensures |ClaimedSlots(e, p)| <= 2
    ensures |ClaimedSlots(e, p)| == 2 ==>
              && e.payload.Move? && e.payload.from == e.payload.to == p && e.payload.fromSlot != e.payload.toSlot
              && ClaimedSlots(e, p) == {SlotKey(OwnerOf(e), p, e.payload.fromSlot),
                SlotKey(OwnerOf(e), p, e.payload.toSlot)}
  {
    match e.payload
    case Move(_, _, from, to, fromSlot, toSlot) =>
      var a, b := SlotKey(OwnerOf(e), p, toSlot), SlotKey(OwnerOf(e), p, fromSlot);
      if to == p && from == p {
        assert ClaimedSlots(e, p) == {a, b};
        assert a == b ==> {a, b} == {a};
      } else if to == p {
        assert ClaimedSlots(e, p) == {a};
      } else if from == p {
        assert ClaimedSlots(e, p) == {b};
      }
    case _ =>
  }

  lemma SlotClaimed(e: Evidence, c: Claim)
    requires c in ClaimsOf(e) && c.PortClaim?
    ensures c.slotKey in ClaimedSlots(e, c.slotKey.port)
  {
  }

  /** A slot key of a port was there before the record, or is claimed by it within the limit checked beforehand. */
  lemma SlotsGrow(s: RegistryState, l: Limits, h: nat, e: Evidence, receivedAt: I64, durable: bool, live: bool,
                  p: PortRef, key: SlotKey)
    requires ShapeOk(s)
    requires key in Group(IngestRecord(s, l, h, e, receivedAt, durable, live).state.ports, p)
            && key !in Group(s.ports, p)
    ensures key in ClaimedSlots(e, p)
    ensures p in s.ports ==> |s.ports[p]| < l.maxClaimsPerPort
  {
    hide IngestRecord, ClaimsOf, ValidShape, Decide, DecidePlacement;
    ShapeIngest(s, l, h, e, receivedAt, durable, live);
    IngestOrigin(s, l, h, e, receivedAt, durable, live, PortKey(key));
    var c := At(IngestRecord(s, l, h, e, receivedAt, durable, live).state, PortKey(key)).value.value;
    PlacementKinds(e, c);
    SlotClaimed(e, c);
    var meta := MetaOf(s, e, receivedAt, live);
    assert DecidePlacement(s, l, e, meta).staged.apply by { DecidesPlacement(s, l, e, meta); }
    PlacementStaged(s, l, e, meta);
  }

  lemma DecidesPlacement(s: RegistryState, l: Limits, e: Evidence, meta: Attestation)
    requires e.payload.Attach? || e.payload.Detach? || e.payload.Move?
    ensures Decide(s, l, e, meta) == DecidePlacement(s, l, e, meta)
  {
    hide DecidePlacement, OutcomeOf, ClaimsOf;
  }

  /**
    * A port passes its claim limit by at most one, and only by a Move between two fresh slots of
    * that port: both keys are checked against the state before either is written.
    */
  lemma PortGrows(s: RegistryState, l: Limits, h: nat, e: Evidence, receivedAt: I64, durable: bool, live: bool,
                     p: PortRef)
    requires ShapeOk(s) && l.maxClaimsPerPort >= 1
    requires |Group(s.ports, p)| <= l.maxClaimsPerPort + 1
    ensures var n, n' := |Group(s.ports, p)|, |Group(IngestRecord(s, l, h, e, receivedAt, durable, live).state.ports,
            p)|;
            && n' <= l.maxClaimsPerPort + 1
            && (n <= l.maxClaimsPerPort < n' ==>
                  && e.payload.Move? && e.payload.from == e.payload.to == p && e.payload.fromSlot != e.payload.toSlot
                  && SlotKey(OwnerOf(e), p, e.payload.fromSlot) !in Group(s.ports, p)
                  && SlotKey(OwnerOf(e), p, e.payload.toSlot) !in Group(s.ports, p)
                  && n + 1 == l.maxClaimsPerPort)
  {
    hide IngestRecord, ClaimsOf, ClaimedSlots, ShapeOk;
    var before, after := Group(s.ports, p).Keys, Group(IngestRecord(s, l, h, e, receivedAt, durable, live).state.ports,
      p).Keys;
    var fresh' := after - before;
    forall key | key in fresh'
      ensures key in ClaimedSlots(e, p) && (p in s.ports ==> |s.ports[p]| < l.maxClaimsPerPort)
    {
      SlotsGrow(s, l, h, e, receivedAt, durable, live, p, key);
    }
    ClaimedSlotsSize(e, p);
    SubsetSize(fresh', ClaimedSlots(e, p));
    SubsetSize(after, before + fresh');
    assert |before + fresh'| == |before| + |fresh'|;
    if fresh' != {} && |fresh'| == 2 {
      SameSizeSubset(fresh', ClaimedSlots(e, p));
    }
    if fresh' != {} {
      var key :| key in fresh';
      assert p in s.ports ==> |before| < l.maxClaimsPerPort;
    }
  }

  lemma SameSizeSubset<T>(a: set<T>, b: set<T>)
    requires a <= b && |a| == |b|
    ensures a == b
  {
    if exists x :: x in b && x !in a {
      var x :| x in b && x !in a;
      SubsetSize(a + {x}, b);
      assert false;
    }
  }

  /** A table that gains at most the key x, and only below the limit, stays within it. */
  lemma WithinLimit<K, V>(m: map<K, V>, m': map<K, V>, x: K, limit: nat)
    requires |m| <= limit
    requires forall y :: y in m' && y !in m ==> y == x && |m| < limit
    ensures |m'| <= limit
  {
    OneMoreEntry(m, m');
    if !(m'.Keys <= m.Keys) {
      var y :| y in m'.Keys && y !in m.Keys;
      assert y in m' && y !in m;
    }
  }

  lemma ObjectsWithin(s: RegistryState, l: Limits, h: nat, e: Evidence, receivedAt: I64, durable: bool, live: bool)
    requires SizesOk(s, l) && ShapeOk(s)
    ensures |IngestRecord(s, l, h, e, receivedAt, durable, live).state.objects| <= l.maxObjects
  {
    hide IngestRecord, ShapeOk;
    var s' := IngestRecord(s, l, h, e, receivedAt, durable, live).state;
    var x := if e.payload.RegisterObject? then e.payload.objectDescriptor.id else 0;
    forall y | y in s'.objects && y !in s.objects
      ensures y == x && |s.objects| < l.maxObjects
    {
      ObjectsGrow(s, l, h, e, receivedAt, durable, live, y);
    }
    WithinLimit(s.objects, s'.objects, x, l.maxObjects);
  }

  lemma EndpointsWithin(s: RegistryState, l: Limits, h: nat, e: Evidence, receivedAt: I64, durable: bool, live: bool)
    requires SizesOk(s, l) && ShapeOk(s)
    ensures |IngestRecord(s, l, h, e, receivedAt, durable, live).state.endpoints| <= l.maxEndpoints
  {
    hide IngestRecord, ShapeOk;
    var s' := IngestRecord(s, l, h, e, receivedAt, durable, live).state;
    var x := if e.payload.RegisterEndpoint? then e.payload.endpointDescriptor.id else 0;
    forall y | y in s'.endpoints && y !in s.endpoints
      ensures y == x && |s.endpoints| < l.maxEndpoints
    {
      EndpointsGrow(s, l, h, e, receivedAt, durable, live, y);
    }
    WithinLimit(s.endpoints, s'.endpoints, x, l.maxEndpoints);
  }

  lemma SizesIngest(s: RegistryState, l: Limits, h: nat, e: Evidence, receivedAt: I64, durable: bool, live: bool)
    requires SizesOk(s, l) && ShapeOk(s) && l.maxClaimsPerPort >= 1
    ensures SizesOk(IngestRecord(s, l, h, e, receivedAt, durable, live).state, l)
  {
    hide IngestRecord, ShapeOk;
    var s' := IngestRecord(s, l, h, e, receivedAt, durable, live).state;
    IngestKeepsCatalogue(s, l, h, e, receivedAt, durable, live);
    ObjectsWithin(s, l, h, e, receivedAt, durable, live);
    EndpointsWithin(s, l, h, e, receivedAt, durable, live);
    forall p | p in s'.ports
      ensures |s'.ports[p]| <= l.maxClaimsPerPort + 1
    {
      PortGrows(s, l, h, e, receivedAt, durable, live, p);
    }
  }

  /** A set that gains at most one element grows by at most one. */
  lemma OneMore<T>(a: set<T>, b: set<T>)
    requires forall x, y :: x in b - a && y in b - a ==> x == y
    ensures |b| <= |a| + 1
    ensures b <= a ==> |b| <= |a|
  {
    if b <= a {
      SubsetSize(b, a);
    } else {
      var x :| x in b && x !in a;
      forall y | y in b
        ensures y in a + {x}
      {
        if y !in a { assert y in b - a && x in b - a; }
      }
      SubsetSize(b, a + {x});
    }
  }

  lemma OneMoreEntry<K, V>(m: map<K, V>, m': map<K, V>)
    requires forall x, y :: x in m'.Keys - m.Keys && y in m'.Keys - m.Keys ==> x == y
    ensures |m'| <= |m| + 1
    ensures m'.Keys <= m.Keys ==> |m'| <= |m|
  {
    OneMore(m.Keys, m'.Keys);
    MapSize(m);
    MapSize(m');
  }

  lemma SizesOpen(s: RegistryState, l: Limits, d: SourceDescriptor, incarnation: U64, openedAt: I64, durable: bool)
    requires SizesOk(s, l)
    ensures SizesOk(OpenSession(s, l, d, incarnation, openedAt, durable), l)
  {
    hide OpenSession, OpenAnswer, SourceAfterOpen, SourceBefore;
    OpenEffect(s, l, d, incarnation, openedAt, durable);
    if OpenAccepted(OpenAnswer(s, l, d, incarnation, durable)) {
      OpenChecked(s, l, d, incarnation, durable);
      WithinLimit(s.sources, s.sources[d.id := SourceAfterOpen(SourceBefore(s, d), d, incarnation)], d.id,
        l.maxSources);
    }
  }

  lemma SizesStep(s: RegistryState, l: Limits, h: nat, ev: Event)
    requires SizesOk(s, l) && ShapeOk(s) && l.maxClaimsPerPort >= 1
    ensures SizesOk(Step(s, l, h, ev), l)
  {
    hide IngestRecord, ClearVolatile, OpenSession, OpenAnswer, NoEmptyGroup, SlotsFiled;
    match ev
    case Ingesting(e, receivedAt, durable) => SizesIngest(s, l, h, e, receivedAt, durable, true);
    case Restarting(_) => SizesClear(s, l);
    case Opening(d, incarnation, openedAt, durable) => SizesOpen(s, l, d, incarnation, openedAt, durable);
    case Closing(_, _) =>
  }

  lemma SizesClear(s: RegistryState, l: Limits)
    requires SizesOk(s, l) && ShapeOk(s)
    ensures SizesOk(ClearVolatile(s), l)
  {
    hide ClearTable, NoEmptyGroup, ClearSessions;
    ClearKeepsGroups(s.objects);
    ClearKeepsGroups(s.endpoints);
    ClearKeepsGroups(s.ports);
    var t := ClearVolatile(s);
    MapSize(s.objects);
    MapSize(t.objects);
    MapSize(s.endpoints);
    MapSize(t.endpoints);
    forall p | p in t.ports
      ensures |t.ports[p]| <= l.maxClaimsPerPort + 1
    {
      MapSize(s.ports[p]);
      MapSize(t.ports[p]);
    }
  }
}

// Every invariant at once, over whole runs.
module Reachable {
  import opened Words
  import opened Evidence
  import opened State
  import opened Sessions
  import opened Invariants
  import opened Placement
  import opened Bounds

  /** What holds of every state a run can reach. */
  ghost predicate Good(s: RegistryState, l: Limits, h: nat)
  {
    && CatalogueOk(s) && RecordsOk(s) && PlacementOk(s)
    && RingsOk(s, h) && ValuesOk(s, l) && ShapeOk(s) && SizesOk(s, l)
  }

  lemma GoodStart(id: Id, openedAt: I64, l: Limits, h: nat)
    ensures Good(EmptyState(id, openedAt), l, h)
  {
  }

  lemma GoodStep(s: RegistryState, l: Limits, h: nat, ev: Event)
    requires Good(s, l, h) && l.maxClaimsPerPort >= 1
    ensures Good(Step(s, l, h, ev), l, h)
  {
    hide Step, CatalogueOk, RecordsOk, PlacementOk, RingsOk, ValuesOk, ShapeOk, SizesOk;
    CatalogueStep(s, l, h, ev);
    RecordsStep(s, l, h, ev);
    PlacementStep(s, l, h, ev);
    RingsStep(s, l, h, ev);
    ValuesStep(s, l, h, ev);
    ShapeStep(s, l, h, ev);
    SizesStep(s, l, h, ev);
  }

  /** Every run keeps every invariant. */
  lemma {:induction false} GoodRun(s: RegistryState, l: Limits, h: nat, evs: seq<Event>)
    requires Good(s, l, h) && l.maxClaimsPerPort >= 1
    ensures Good(Run(s, l, h, evs), l, h)
    decreases |evs|
  {
    hide Step, Good;
    if evs != [] {
      GoodRun(s, l, h, evs[..|evs| - 1]);
      GoodStep(Run(s, l, h, evs[..|evs| - 1]), l, h, evs[|evs| - 1]);
    }
  }
}
