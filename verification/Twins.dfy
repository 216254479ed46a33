// What the registry decides about a record does not depend on lifetime flags or session
// bookkeeping, so replaying an accepted record rebuilds what it built before.

module Twins {
  import opened Words
  import opened Evidence
  import opened Ordering
  import opened State
  import opened Fold
  import opened Lifecycle
  import opened Ingest
  import opened Keys
  import opened Effects
  import opened Sessions
  import opened Invariants
  import opened Bounds
  import opened Congruence
  import opened Snapshot

  /** Equal but for identity, opening time, lifetime flags and session bookkeeping. */
  ghost predicate Twin(s: RegistryState, t: RegistryState)
  {
    && t.sources == s.sources && t.sessions.Keys == s.sessions.Keys
    && ClearTable(t.objects) == ClearTable(s.objects)
    && ClearTable(t.endpoints) == ClearTable(s.endpoints)
    && ClearTable(t.subjects) == ClearTable(s.subjects)
    && ClearTable(t.ports) == ClearTable(s.ports)
    && ClearTable(t.lifecycles) == ClearTable(s.lifecycles)
    && ClearTable(t.reincarnations) == ClearTable(s.reincarnations)
    && ClearTable(t.objectCapabilities) == ClearTable(s.objectCapabilities)
    && ClearTable(t.portCapabilities) == ClearTable(s.portCapabilities)
  }

  lemma TwinEvidence(s: RegistryState, t: RegistryState)
    requires Twin(s, t)
    ensures SameEvidence(s, t) && Agree(Timeless, s, t)
  {
    hide CanonTable, ClearTable, Agree;
    ClearSame(s.objects);
    ClearSame(t.objects);
    ClearSame(s.endpoints);
    ClearSame(t.endpoints);
    ClearSame(s.subjects);
    ClearSame(t.subjects);
    ClearSame(s.ports);
    ClearSame(t.ports);
    ClearSame(s.lifecycles);
    ClearSame(t.lifecycles);
    ClearSame(s.reincarnations);
    ClearSame(t.reincarnations);
    ClearSame(s.objectCapabilities);
    ClearSame(t.objectCapabilities);
    ClearSame(s.portCapabilities);
    ClearSame(t.portCapabilities);
    SameEvidenceAgrees(s, t);
  }

  // ---- Keys ----

  function ClearCell(f: Option<Folded<Claim>>): Option<Folded<Claim>>
  {
    if f.Some? then Some(ClearFolded(f.value)) else None
  }

  lemma TwinAt(s: RegistryState, t: RegistryState, k: Key)
    requires Twin(s, t)
    ensures ClearCell(At(t, k)) == ClearCell(At(s, k))
    ensures At(t, k).Some? == At(s, k).Some?
    ensures At(s, k).Some? ==>
            At(t, k).value.value == At(s, k).value.value
            && At(t, k).value.meta.generation == At(s, k).value.meta.generation
  {
    hide At;
    ClearAt(s, k);
    ClearAt(t, k);
    SameCleared(s, t, k);
    if At(s, k).Some? {
      var f, g := At(s, k).value, At(t, k).value;
      assert ClearFolded(f).value == ClearFolded(g).value && ClearFolded(f).meta == ClearFolded(g).meta;
    }
  }

  lemma SameCleared(s: RegistryState, t: RegistryState, k: Key)
    requires Twin(s, t)
    ensures At(ClearVolatile(t), k) == At(ClearVolatile(s), k)
  {
    hide ClearTable, At, Twin;
    TwinCleared(s, t);
    AtIgnoresRest(ClearVolatile(s), ClearVolatile(t), k);
  }

  /** Keys do not see the identity, the opening time or the sessions. */
  lemma AtIgnoresRest(s: RegistryState, t: RegistryState, k: Key)
    requires t == s.(id := t.id, openedAt := t.openedAt, sessions := t.sessions)
    ensures At(t, k) == At(s, k)
  {
  }

  lemma TwinCleared(s: RegistryState, t: RegistryState)
    requires Twin(s, t)
    ensures ClearVolatile(t) ==
            ClearVolatile(s).(id := t.id, openedAt := t.openedAt, sessions := ClearVolatile(t).sessions)
  {
    hide ClearTable;
  }

  lemma TwinOutcome(s: RegistryState, t: RegistryState, c: Claim, m: Attestation, n: Attestation)
    requires Twin(s, t) && ClearMeta(m) == ClearMeta(n)
    ensures OutcomeOf(t, c, n) == OutcomeOf(s, c, m)
  {
    hide At, OutcomeOf, Twin, KeyOf, SameContent;
    assert m.owner == ClearMeta(m).owner == ClearMeta(n).owner == n.owner;
    assert m.generation == ClearMeta(m).generation == ClearMeta(n).generation == n.generation;
    OutcomeByKey(s, c, m);
    OutcomeByKey(t, c, n);
    TwinAt(s, t, KeyOf(c, m.owner));
  }

  lemma {:induction false} TwinSelect(s: RegistryState, t: RegistryState, claims: seq<Claim>, m: Attestation,
                                      n: Attestation, wanted: KeyOutcome)
    requires Twin(s, t) && ClearMeta(m) == ClearMeta(n)
    ensures Select(t, claims, n, wanted) == Select(s, claims, m, wanted)
    decreases |claims|
  {
    hide OutcomeOf, Twin;
    if claims != [] {
      TwinOutcome(s, t, claims[0], m, n);
      TwinSelect(s, t, claims[1..], m, n, wanted);
    }
  }

  // ---- Lookups ----

  lemma ClearedKeys<P(!new), K(!new), V>(a: Table<P, K, V>, b: Table<P, K, V>)
    requires ClearTable(a) == ClearTable(b)
    ensures a.Keys == b.Keys && forall p :: p in a ==> a[p].Keys == b[p].Keys
  {
    assert a.Keys == ClearTable(a).Keys == ClearTable(b).Keys == b.Keys;
    forall p | p in a
      ensures a[p].Keys == b[p].Keys
    {
      assert ClearTable(a)[p] == ClearTable(b)[p];
      assert a[p].Keys == ClearGroup(a[p]).Keys == ClearGroup(b[p]).Keys == b[p].Keys;
    }
  }

  lemma KeysSize<K, V, W>(a: map<K, V>, b: map<K, W>)
    requires a.Keys == b.Keys
    ensures |a| == |b|
  {
    assert |a| == |a.Keys| && |b| == |b.Keys|;
  }

  lemma TwinSizes(s: RegistryState, t: RegistryState)
    requires Twin(s, t)
    ensures t.objects.Keys == s.objects.Keys && |t.objects| == |s.objects|
    ensures t.endpoints.Keys == s.endpoints.Keys && |t.endpoints| == |s.endpoints|
    ensures forall l, key :: PortCapacityReached(t, l, key) == PortCapacityReached(s, l, key)
  {
    hide ClearTable;
    ClearedKeys(s.objects, t.objects);
    ClearedKeys(s.endpoints, t.endpoints);
    ClearedKeys(s.ports, t.ports);
    KeysSize(s.objects, t.objects);
    KeysSize(s.endpoints, t.endpoints);
    forall p | p in s.ports
      ensures |t.ports[p]| == |s.ports[p]|
    {
      KeysSize(s.ports[p], t.ports[p]);
    }
  }

  lemma TwinLabels(s: RegistryState, t: RegistryState, d: ObjectDescriptor)
    requires Twin(s, t)
    ensures LabelConflict(t, d) == LabelConflict(s, d)
  {
    hide Twin, LifecycleOf, Agree;
    TwinEvidence(s, t);
    TwinSizes(s, t);
    forall x
      ensures LifecycleOf(t, x) == LifecycleOf(s, x) && HoldsLabel(t, x, d.physicalLabel) ==
              HoldsLabel(s, x, d.physicalLabel)
    {
      AgreeLifecycle(Timeless, s, t, x);
      TwinHolds(s, t, x, d.physicalLabel);
    }
    assert LabelBlockers(t, d) == LabelBlockers(s, d);
  }

  lemma TwinHolds(s: RegistryState, t: RegistryState, x: Id, text: Text)
    requires Agree(Timeless, s, t)
    ensures HoldsLabel(t, x, text) == HoldsLabel(s, x, text)
  {
    hide TableAgrees, SlotsAgree;
    AgreeAll(Timeless, s, s.objects, t.objects, x);
  }

  // ---- Decisions ----

  /** The same decision, up to the attestation's lifetime flag. */
  predicate SameDecision(a: Decision, b: Decision)
  {
    && b.disposition == a.disposition && b.labelHolder == a.labelHolder
    && b.staged.rings == a.staged.rings && b.staged.writes == a.staged.writes && b.staged.apply == a.staged.apply
    && ClearMeta(b.staged.meta) == ClearMeta(a.staged.meta)
  }

  /** Everything a decision looks at beside the outcomes. */
  ghost predicate SameGroundFor(s: RegistryState, t: RegistryState)
  {
    && (forall o :: Fenced(t, o) == Fenced(s, o))
    && (forall x :: ObjectExists(t, x) == ObjectExists(s, x) && IncarnationOf(t, x) == IncarnationOf(s, x))
    && (forall p :: PortExists(t, p) == PortExists(s, p))
  }

  lemma TwinGround(s: RegistryState, t: RegistryState)
    requires Twin(s, t)
    ensures SameGroundFor(s, t)
  {
    hide Twin, Agree, IncarnationOf, ObjectExists, PortExists, Fenced;
    TwinEvidence(s, t);
    AgreeFenced(Timeless, s, t);
    forall x: Id
      ensures ObjectExists(t, x) == ObjectExists(s, x) && IncarnationOf(t, x) == IncarnationOf(s, x)
    {
      AgreeExists(Timeless, s, t, x);
      AgreeIncarnation(Timeless, s, t, x);
    }
    forall p: PortRef
      ensures PortExists(t, p) == PortExists(s, p)
    {
      SamePortExists(s, t, p);
    }
  }

  lemma TwinExists(s: RegistryState, t: RegistryState, l: Limits, claims: seq<Claim>, m: Attestation, n: Attestation)
    requires Twin(s, t) && ClearMeta(m) == ClearMeta(n)
    ensures (exists c :: c in claims && c.PortClaim? && PortCapacityReached(t, l, c.slotKey)) ==
            (exists c :: c in claims && c.PortClaim? && PortCapacityReached(s, l, c.slotKey))
    ensures (exists c :: c in claims && OutcomeOf(t, c, n) == Collision) ==
            (exists c :: c in claims && OutcomeOf(s, c, m) == Collision)
    ensures (exists c :: c in claims && c.PortClaim? && !PortExists(t, c.slotKey.port)) ==
            (exists c :: c in claims && c.PortClaim? && !PortExists(s, c.slotKey.port))
  {
    hide Twin, OutcomeOf, PortCapacityReached, PortExists, IncarnationOf, ObjectExists, Fenced;
    TwinGround(s, t);
    TwinSizes(s, t);
    forall c
      ensures OutcomeOf(t, c, n) == OutcomeOf(s, c, m)
    {
      TwinOutcome(s, t, c, m, n);
    }
  }

  lemma TwinPlacement(s: RegistryState, t: RegistryState, l: Limits, e: Evidence, m: Attestation, n: Attestation)
    requires Twin(s, t) && ClearMeta(m) == ClearMeta(n) && (e.payload.Attach? || e.payload.Detach? || e.payload.Move?)
    ensures SameDecision(DecidePlacement(s, l, e, m), DecidePlacement(t, l, e, n))
  {
    hide Twin, OutcomeOf, PortCapacityReached, IncarnationOf, ObjectExists, PortExists, Fenced, Select, ClaimsOf,
         Effective;
    assert m.owner == ClearMeta(m).owner == ClearMeta(n).owner == n.owner;
    TwinGround(s, t);
    var claims := ClaimsOf(e);
    TwinExists(s, t, l, claims, m, n);
    TwinSelect(s, t, claims, m, n, Insert);
    TwinSelect(s, t, claims, m, n, Superseded);
  }

  lemma TwinSingle(s: RegistryState, t: RegistryState, l: Limits, e: Evidence, m: Attestation, n: Attestation)
    requires Twin(s, t) && ClearMeta(m) == ClearMeta(n) && !(e.payload.Attach? || e.payload.Detach? || e.payload.Move?)
    ensures SameDecision(Decide(s, l, e, m), Decide(t, l, e, n))
  {
    hide Twin, Decide, SameDecision;
    if e.payload.RegisterObject? || e.payload.RegisterEndpoint? {
      TwinRegistration(s, t, l, e, m, n);
    } else if e.payload.SetLifecycle? || e.payload.ReincarnateObject? {
      TwinLife(s, t, l, e, m, n);
    } else {
      TwinCapability(s, t, l, e, m, n);
    }
  }

  lemma TwinRegistration(s: RegistryState, t: RegistryState, l: Limits, e: Evidence, m: Attestation, n: Attestation)
    requires Twin(s, t) && ClearMeta(m) == ClearMeta(n) && (e.payload.RegisterObject? || e.payload.RegisterEndpoint?)
    ensures SameDecision(Decide(s, l, e, m), Decide(t, l, e, n))
  {
    hide Twin, OutcomeOf, DecidePlacement, IncarnationOf, ObjectExists, PortExists, Fenced, LabelConflict, TargetOf,
         Effective, ClaimsOf;
    assert m.owner == ClearMeta(m).owner == ClearMeta(n).owner == n.owner;
    TwinGround(s, t);
    TwinSizes(s, t);
    TwinOutcome(s, t, ClaimsOf(e)[0], m, n);
    if e.payload.RegisterObject? { TwinLabels(s, t, e.payload.objectDescriptor); }
  }

  lemma TwinLife(s: RegistryState, t: RegistryState, l: Limits, e: Evidence, m: Attestation, n: Attestation)
    requires Twin(s, t) && ClearMeta(m) == ClearMeta(n) && (e.payload.SetLifecycle? || e.payload.ReincarnateObject?)
    ensures SameDecision(Decide(s, l, e, m), Decide(t, l, e, n))
  {
    hide Twin, OutcomeOf, DecidePlacement, IncarnationOf, ObjectExists, PortExists, Fenced, LabelConflict, TargetOf,
         Effective, ClaimsOf;
    assert m.owner == ClearMeta(m).owner == ClearMeta(n).owner == n.owner;
    TwinGround(s, t);
    TwinOutcome(s, t, ClaimsOf(e)[0], m, n);
  }

  lemma TwinCapability(s: RegistryState, t: RegistryState, l: Limits, e: Evidence, m: Attestation, n: Attestation)
    requires Twin(s, t) && ClearMeta(m) == ClearMeta(n)
            && (e.payload.PublishObjectCapability? || e.payload.PublishPortCapability?)
    ensures SameDecision(Decide(s, l, e, m), Decide(t, l, e, n))
  {
    hide Twin, OutcomeOf, DecidePlacement, IncarnationOf, ObjectExists, PortExists, Fenced, LabelConflict, TargetOf,
         Effective, ClaimsOf;
    assert m.owner == ClearMeta(m).owner == ClearMeta(n).owner == n.owner;
    TwinGround(s, t);
    TwinOutcome(s, t, ClaimsOf(e)[0], m, n);
  }

  /** Twins decide alike. */
  lemma TwinDecide(s: RegistryState, t: RegistryState, l: Limits, e: Evidence, m: Attestation, n: Attestation)
    requires Twin(s, t) && ClearMeta(m) == ClearMeta(n)
    ensures SameDecision(Decide(s, l, e, m), Decide(t, l, e, n))
  {
    if e.payload.Attach? || e.payload.Detach? || e.payload.Move? {
      TwinPlacement(s, t, l, e, m, n);
    } else {
      TwinSingle(s, t, l, e, m, n);
    }
  }

  // ---- Folding ----

  lemma ClearSort(ring: seq<Attestation>)
    ensures ClearRing(SortBy(ring, RingRank)) == SortBy(ClearRing(ring), RingRank)
  {
    hide SortBy;
    var clear := (m: Attestation) => ClearMeta(m);
    SortByMap(ring, clear, RingRank);
    assert MapSeq(ring, clear) == ClearRing(ring);
    assert MapSeq(SortBy(ring, RingRank), clear) == ClearRing(SortBy(ring, RingRank));
  }

  lemma ClearRetain(ring: seq<Attestation>, dropped: U32, h: nat)
    ensures Retain(ClearRing(ring), dropped, h) ==
            Ring(ClearRing(Retain(ring, dropped, h).entries), Retain(ring, dropped, h).dropped)
  {
    hide SortBy;
    ClearSort(ring);
    var r := SortBy(ring, RingRank);
    if |r| > h {
      assert ClearRing(r[|r| - h..]) == ClearRing(r)[|r| - h..];
    }
  }

  lemma ClearCites(ring: seq<Attestation>, evidence: Id)
    ensures Cites(ClearRing(ring), evidence) == Cites(ring, evidence)
  {
    if i :| 0 <= i < |ring| && ring[i].evidence == evidence {
      assert ClearRing(ring)[i].evidence == evidence;
    }
    if i :| 0 <= i < |ring| && ClearRing(ring)[i].evidence == evidence {
      assert ring[i].evidence == evidence;
    }
  }

  lemma ClearWin(f: Folded<Claim>, m: Attestation, c: Claim, h: nat)
    ensures FoldWin(ClearFolded(f), ClearMeta(m), c, h) == ClearFolded(FoldWin(f, m, c, h))
  {
    hide Retain, Cites;
    ClearCites(f.superseded, f.meta.evidence);
    assert ClearRing(f.superseded + [f.meta]) == ClearRing(f.superseded) + [ClearMeta(f.meta)];
    ClearRetain(f.superseded, f.dropped, h);
    ClearRetain(f.superseded + [f.meta], f.dropped, h);
  }

  lemma ClearLose(f: Folded<Claim>, m: Attestation, h: nat)
    ensures FoldLose(ClearFolded(f), ClearMeta(m), h) == ClearFolded(FoldLose(f, m, h))
  {
    hide Retain, Cites;
    ClearCites(f.superseded, m.evidence);
    assert ClearRing(f.superseded + [m]) == ClearRing(f.superseded) + [ClearMeta(m)];
    ClearRetain(f.superseded + [m], f.dropped, h);
  }

  lemma TwinWin(f: Option<Folded<Claim>>, g: Option<Folded<Claim>>, m: Attestation, n: Attestation, c: Claim, h: nat)
    requires ClearCell(f) == ClearCell(g) && ClearMeta(m) == ClearMeta(n)
    ensures ClearCell(WinAt(f, m, c, h)) == ClearCell(WinAt(g, n, c, h))
    ensures ClearCell(LoseAt(f, m, h)) == ClearCell(LoseAt(g, n, h))
  {
    hide FoldWin, FoldLose, ClearFolded;
    if f.Some? {
      ClearWin(f.value, m, c, h);
      ClearWin(g.value, n, c, h);
      ClearLose(f.value, m, h);
      ClearLose(g.value, n, h);
    } else {
      FreshClears(m, n, c);
    }
  }

  lemma FreshClears(m: Attestation, n: Attestation, c: Claim)
    requires ClearMeta(m) == ClearMeta(n)
    ensures ClearFolded(Folded(m, c, [], 0)) == ClearFolded(Folded(n, c, [], 0))
  {
  }

  // ---- One record ----

  lemma TwinMeta(s: RegistryState, t: RegistryState, e: Evidence, receivedAt: I64, live: bool, live': bool)
    requires Twin(s, t) && e.header.source in s.sources
    ensures ClearMeta(MetaOf(s, e, receivedAt, live)) == ClearMeta(MetaOf(t, e, receivedAt, live'))
  {
    hide ClearTable;
  }

  lemma TwinKnown(s: RegistryState, t: RegistryState, e: Evidence)
    requires Twin(s, t)
    ensures KnownSession(t, e) == KnownSession(s, e)
  {
    hide ClearTable;
  }

  lemma TwinDisposition(s: RegistryState, t: RegistryState, l: Limits, h: nat, e: Evidence, receivedAt: I64,
                        durable: bool, live: bool, live': bool)
    requires Twin(s, t)
    ensures IngestRecord(t, l, h, e, receivedAt, durable, live').disposition ==
            IngestRecord(s, l, h, e, receivedAt, durable, live).disposition
    ensures Applied(t, l, e, receivedAt, durable, live') == Applied(s, l, e, receivedAt, durable, live)
  {
    hide Twin, Decide, ApplyChange, ValidShape, NoteRecord, KnownSession;
    TwinKnown(s, t, e);
    if KnownSession(s, e) {
      assert e.header.source in s.sources && e.header.source in t.sources by { KnownSource(s, e); KnownSource(t, e); }
      TwinMeta(s, t, e, receivedAt, live, live');
      TwinDecide(s, t, l, e, MetaOf(s, e, receivedAt, live), MetaOf(t, e, receivedAt, live'));
    }
  }

  lemma KnownSource(s: RegistryState, e: Evidence)
    requires KnownSession(s, e)
    ensures e.header.source in s.sources
  {
  }

  lemma TwinAfter(s: RegistryState, t: RegistryState, l: Limits, h: nat, e: Evidence, receivedAt: I64, durable: bool,
                  live: bool, live': bool, k: Key)
    requires Twin(s, t)
    ensures ClearCell(At(IngestRecord(t, l, h, e, receivedAt, durable, live').state, k))
            == ClearCell(At(IngestRecord(s, l, h, e, receivedAt, durable, live).state, k))
  {
    hide Twin, IngestRecord, At, OutcomeOf, WinAt, LoseAt, ClaimsOf, Find, Decide, ValidShape, IncarnationOf,
         ObjectExists, TargetOf, ClearFolded, PortExists;
    IngestAt(s, l, h, e, receivedAt, durable, live, k);
    IngestAt(t, l, h, e, receivedAt, durable, live', k);
    TwinDisposition(s, t, l, h, e, receivedAt, durable, live, live');
    TwinAt(s, t, k);
    var c := Find(ClaimsOf(e), OwnerOf(e), k);
    if Applied(s, l, e, receivedAt, durable, live) && c.Some? {
      var m, n := MetaOf(s, e, receivedAt, live), MetaOf(t, e, receivedAt, live');
      TwinMeta(s, t, e, receivedAt, live, live');
      TwinOutcome(s, t, c.value, m, n);
      TwinGround(s, t);
      TwinWin(At(s, k), At(t, k), m, n, c.value, h);
      assert KeyOf(c.value, m.owner) == k == KeyOf(c.value, n.owner);
    }
  }

  // ---- From keys to tables ----

  lemma ClearedTables<P(!new), K(!new), V>(a: Table<P, K, V>, b: Table<P, K, V>)
    requires NoEmptyGroup(a) && NoEmptyGroup(b)
    requires forall p, k :: SameClear(Cell(a, p, k), Cell(b, p, k))
    ensures ClearTable(a) == ClearTable(b)
  {
    hide ClearFolded;
    KeysWithin(a, b);
    KeysWithin(b, a);
    assert a.Keys == b.Keys;
    forall p | p in a
      ensures ClearGroup(a[p]) == ClearGroup(b[p])
    {
      forall k
        ensures k in a[p] <==> k in b[p]
        ensures k in a[p] ==> ClearFolded(a[p][k]) == ClearFolded(b[p][k])
      {
        assert SameClear(Cell(a, p, k), Cell(b, p, k));
      }
      assert ClearGroup(a[p]).Keys == ClearGroup(b[p]).Keys;
    }
    assert ClearTable(a).Keys == ClearTable(b).Keys;
  }

  ghost predicate SameClear<V>(f: Option<Folded<V>>, g: Option<Folded<V>>)
  {
    f.Some? == g.Some? && (f.Some? ==> ClearFolded(f.value) == ClearFolded(g.value))
  }

  lemma KeysWithin<P(!new), K(!new), V>(a: Table<P, K, V>, b: Table<P, K, V>)
    requires NoEmptyGroup(a)
    requires forall p, k :: SameClear(Cell(a, p, k), Cell(b, p, k)) || SameClear(Cell(b, p, k), Cell(a, p, k))
    ensures a.Keys <= b.Keys
  {
    hide ClearFolded;
    forall p | p in a
      ensures p in b
    {
      assert a[p] != map[];
      EmptyGroup(a[p]);
      var k :| k in a[p].Keys;
      assert Cell(a, p, k).Some?;
      assert SameClear(Cell(a, p, k), Cell(b, p, k)) || SameClear(Cell(b, p, k), Cell(a, p, k));
    }
  }

  ghost predicate TwinKeys(s: RegistryState, t: RegistryState)
  {
    forall k :: ClearCell(At(s, k)) == ClearCell(At(t, k))
  }

  lemma Uncell<V>(f: Option<Folded<V>>, g: Option<Folded<V>>, claim: V -> Claim)
    requires ClearCell(Lift(f, claim)) == ClearCell(Lift(g, claim)) && forall v, w :: claim(v) == claim(w) ==> v == w
    ensures SameClear(f, g)
  {
    if f.Some? {
      var a, b := ClearFolded(Lift(f, claim).value), ClearFolded(Lift(g, claim).value);
      assert a.meta == b.meta && a.value == b.value && a.superseded == b.superseded && a.dropped == b.dropped;
    }
  }

  lemma TwinTable<P(!new), V(!new)>(s: RegistryState, t: RegistryState, a: Table<P, Owner, V>, b: Table<P, Owner, V>,
                                    key: (P, Owner) -> Key, claim: (P, V) -> Claim)
    requires NoEmptyGroup(a) && NoEmptyGroup(b) && TwinKeys(s, t)
    requires forall p, o :: At(s, key(p, o)) == Lift(Cell(a, p, o), v => claim(p, v))
    requires forall p, o :: At(t, key(p, o)) == Lift(Cell(b, p, o), v => claim(p, v))
    requires forall p, v, w :: claim(p, v) == claim(p, w) ==> v == w
    ensures ClearTable(a) == ClearTable(b)
  {
    hide At, SameClear, NoEmptyGroup, Lift, ClearCell;
    forall p, o
      ensures SameClear(Cell(a, p, o), Cell(b, p, o))
    {
      assert ClearCell(At(s, key(p, o))) == ClearCell(At(t, key(p, o)));
      Uncell(Cell(a, p, o), Cell(b, p, o), v => claim(p, v));
    }
    ClearedTables(a, b);
  }

  lemma TwinPorts(s: RegistryState, t: RegistryState)
    requires ShapeOk(s) && ShapeOk(t) && TwinKeys(s, t)
    ensures ClearTable(s.ports) == ClearTable(t.ports)
  {
    hide ClearFolded, NoEmptyGroup;
    forall p, key
      ensures SameClear(Cell(s.ports, p, key), Cell(t.ports, p, key))
    {
      if p == key.port {
        assert ClearCell(At(s, PortKey(key))) == ClearCell(At(t, PortKey(key)));
        Uncell(Cell(s.ports, key.port, key), Cell(t.ports, key.port, key), v => PortClaim(key, v));
      }
    }
    ClearedTables(s.ports, t.ports);
  }

  lemma TwinRegistrations(s: RegistryState, t: RegistryState)
    requires ShapeOk(s) && ShapeOk(t) && TwinKeys(s, t)
    ensures ClearTable(s.objects) == ClearTable(t.objects) && ClearTable(s.endpoints) == ClearTable(t.endpoints)
    ensures ClearTable(s.subjects) == ClearTable(t.subjects)
  {
    hide NoEmptyGroup, TwinKeys, ClearTable;
    TwinTable(s, t, s.objects, t.objects, (x, o) => ObjectKey(x, o), (x, v) => ObjectClaim(x, v));
    TwinTable(s, t, s.endpoints, t.endpoints, (x, o) => EndpointKey(x, o), (x, v) => EndpointClaim(x, v));
    TwinTable(s, t, s.subjects, t.subjects, (x, o) => SubjectKey(x, o), (x, v) => SubjectClaim(x, v));
  }

  lemma TwinLifetimes(s: RegistryState, t: RegistryState)
    requires ShapeOk(s) && ShapeOk(t) && TwinKeys(s, t)
    ensures ClearTable(s.lifecycles) == ClearTable(t.lifecycles)
            && ClearTable(s.reincarnations) == ClearTable(t.reincarnations)
    ensures ClearTable(s.objectCapabilities) == ClearTable(t.objectCapabilities)
    ensures ClearTable(s.portCapabilities) == ClearTable(t.portCapabilities)
  {
    hide NoEmptyGroup, TwinKeys, ClearTable;
    TwinTable(s, t, s.lifecycles, t.lifecycles, (x, o) => LifecycleKey(x, o), (x, v) => LifecycleClaim(x, v));
    TwinTable(s, t, s.reincarnations, t.reincarnations, (x, o) => ReincarnationKey(x, o),
      (x, v) => ReincarnationClaim(x, v));
    TwinTable(s, t, s.objectCapabilities, t.objectCapabilities, (x, o) => ObjectCapabilityKey(x, o),
      (x, v) => ObjectCapabilityClaim(x, v));
    TwinTable(s, t, s.portCapabilities, t.portCapabilities, (x, o) => PortCapabilityKey(x, o),
      (x, v) => PortCapabilityClaim(x, v));
  }

  /** Ingesting a record keeps twins twins, whatever lifetime each is in. */
  lemma TwinIngest(s: RegistryState, t: RegistryState, l: Limits, h: nat, e: Evidence, receivedAt: I64, durable: bool,
                   live: bool, live': bool)
    requires Twin(s, t) && ShapeOk(s) && ShapeOk(t)
    ensures Twin(IngestRecord(s, l, h, e, receivedAt, durable, live).state,
            IngestRecord(t, l, h, e, receivedAt, durable, live').state)
  {
    hide IngestRecord, At, ClearTable, ShapeOk, ClearCell;
    var s', t' := IngestRecord(s, l, h, e, receivedAt, durable, live).state,
      IngestRecord(t, l, h, e, receivedAt, durable, live').state;
    forall k
      ensures ClearCell(At(s', k)) == ClearCell(At(t', k))
    {
      TwinAfter(s, t, l, h, e, receivedAt, durable, live, live', k);
    }
    IngestKeepsCatalogue(s, l, h, e, receivedAt, durable, live);
    IngestKeepsCatalogue(t, l, h, e, receivedAt, durable, live');
    ShapeIngest(s, l, h, e, receivedAt, durable, live);
    ShapeIngest(t, l, h, e, receivedAt, durable, live');
    TwinPorts(s', t');
    TwinRegistrations(s', t');
    TwinLifetimes(s', t');
  }
}
