// One claim key at a time: the eight tables seen as one map from claim keys to folded
// records, and what one ingested record does to every key.

module Keys {
  import opened Words
  import opened Evidence
  import opened Ordering
  import opened State
  import opened Fold
  import opened Lifecycle
  import opened Ingest

  /** A claim key, with the source incarnation that owns it. */
  datatype Key =
    | ObjectKey(target: Id, owner: Owner)
    | EndpointKey(target: Id, owner: Owner)
    | SubjectKey(side: SideRef, owner: Owner)
    | PortKey(slotKey: SlotKey)
    | LifecycleKey(target: Id, owner: Owner)
    | ReincarnationKey(target: Id, owner: Owner)
    | ObjectCapabilityKey(target: Id, owner: Owner)
    | PortCapabilityKey(port: PortRef, owner: Owner)

  function KeyOwner(k: Key): Owner
  {
    if k.PortKey? then k.slotKey.owner else k.owner
  }

  function KeyOf(c: Claim, o: Owner): Key
  {
    match c
    case ObjectClaim(x, _) => ObjectKey(x, o)
    case EndpointClaim(x, _) => EndpointKey(x, o)
    case SubjectClaim(side, _) => SubjectKey(side, o)
    case PortClaim(key, _) => PortKey(key)
    case LifecycleClaim(x, _) => LifecycleKey(x, o)
    case ReincarnationClaim(x, _) => ReincarnationKey(x, o)
    case ObjectCapabilityClaim(x, _) => ObjectCapabilityKey(x, o)
    case PortCapabilityClaim(p, _) => PortCapabilityKey(p, o)
  }

  function Lift<V>(f: Option<Folded<V>>, claim: V -> Claim): Option<Folded<Claim>>
  {
    if f.Some? then Some(Folded(f.value.meta, claim(f.value.value), f.value.superseded, f.value.dropped)) else None
  }

  /** The folded record a key holds. */
  function At(s: RegistryState, k: Key): Option<Folded<Claim>>
  {
    match k
    case ObjectKey(x, o) => Lift(Cell(s.objects, x, o), v => ObjectClaim(x, v))
    case EndpointKey(x, o) => Lift(Cell(s.endpoints, x, o), v => EndpointClaim(x, v))
    case SubjectKey(x, o) => Lift(Cell(s.subjects, x, o), v => SubjectClaim(x, v))
    case PortKey(x) => Lift(Cell(s.ports, x.port, x), v => PortClaim(x, v))
    case LifecycleKey(x, o) => Lift(Cell(s.lifecycles, x, o), v => LifecycleClaim(x, v))
    case ReincarnationKey(x, o) => Lift(Cell(s.reincarnations, x, o), v => ReincarnationClaim(x, v))
    case ObjectCapabilityKey(x, o) => Lift(Cell(s.objectCapabilities, x, o), v => ObjectCapabilityClaim(x, v))
    case PortCapabilityKey(x, o) => Lift(Cell(s.portCapabilities, x, o), v => PortCapabilityClaim(x, v))
  }

  function WinAt(f: Option<Folded<Claim>>, meta: Attestation, c: Claim, h: nat): Option<Folded<Claim>>
  {
    Some(if f.Some? then FoldWin(f.value, meta, c, h) else Folded(meta, c, [], 0))
  }

  function LoseAt(f: Option<Folded<Claim>>, meta: Attestation, h: nat): Option<Folded<Claim>>
  {
    if f.Some? then Some(FoldLose(f.value, meta, h)) else None
  }

  lemma FoldInCell<P, K, V>(t: Table<P, K, V>, p: P, k: K, meta: Attestation, value: V, h: nat, p': P, k': K)
    ensures Cell(FoldIn(t, p, k, meta, value, h), p', k') ==
            if p' == p && k' == k
            then Some(if Has(t, p, k) then FoldWin(t[p][k], meta, value, h) else Folded(meta, value, [], 0))
            else Cell(t, p', k')
  {
  }

  lemma FoldLosingInCell<P, K, V>(t: Table<P, K, V>, p: P, k: K, meta: Attestation, h: nat, p': P, k': K)
    ensures Cell(FoldLosingIn(t, p, k, meta, h), p', k') ==
            if p' == p && k' == k && Has(t, p, k) then Some(FoldLose(t[p][k], meta, h)) else Cell(t, p', k')
  {
  }

  lemma WriteClaimAt(s: RegistryState, c: Claim, meta: Attestation, h: nat, k: Key)
    ensures At(WriteClaim(s, c, meta, h), k) ==
            if k == KeyOf(c, meta.owner) then WinAt(At(s, k), meta, c, h) else At(s, k)
  {
    hide FoldIn, RingAfterWin;
    var o := meta.owner;
    match c
    case ObjectClaim(x, d) => if k.ObjectKey? { FoldInCell(s.objects, x, o, meta, d, h, k.target, k.owner); }
    case EndpointClaim(x, d) => if k.EndpointKey? { FoldInCell(s.endpoints, x, o, meta, d, h, k.target, k.owner); }
    case SubjectClaim(x, v) => if k.SubjectKey? { FoldInCell(s.subjects, x, o, meta, v, h, k.side, k.owner); }
    case PortClaim(x, v) => if k.PortKey? { FoldInCell(s.ports, x.port, x, meta, v, h, k.slotKey.port, k.slotKey); }
    case LifecycleClaim(x, v) => if k.LifecycleKey? { FoldInCell(s.lifecycles, x, o, meta, v, h, k.target, k.owner); }
    case ReincarnationClaim(x, v) =>
      if k.ReincarnationKey? { FoldInCell(s.reincarnations, x, o, meta, v, h, k.target, k.owner); }
    case ObjectCapabilityClaim(x, v) =>
      if k.ObjectCapabilityKey? { FoldInCell(s.objectCapabilities, x, o, meta, v, h, k.target, k.owner); }
    case PortCapabilityClaim(x, v) =>
      if k.PortCapabilityKey? { FoldInCell(s.portCapabilities, x, o, meta, v, h, k.port, k.owner); }
  }

  lemma RingClaimAt(s: RegistryState, c: Claim, meta: Attestation, h: nat, k: Key)
    ensures At(RingClaim(s, c, meta, h), k) ==
            if k == KeyOf(c, meta.owner) then LoseAt(At(s, k), meta, h) else At(s, k)
  {
    hide FoldLosingIn, RingAfterLoss;
    var o := meta.owner;
    match c
    case ObjectClaim(x, _) => if k.ObjectKey? { FoldLosingInCell(s.objects, x, o, meta, h, k.target, k.owner); }
    case EndpointClaim(x, _) => if k.EndpointKey? { FoldLosingInCell(s.endpoints, x, o, meta, h, k.target, k.owner); }
    case SubjectClaim(x, _) => if k.SubjectKey? { FoldLosingInCell(s.subjects, x, o, meta, h, k.side, k.owner); }
    case PortClaim(x, _) => if k.PortKey? { FoldLosingInCell(s.ports, x.port, x, meta, h, k.slotKey.port, k.slotKey); }
    case LifecycleClaim(x, _) => if k.LifecycleKey? { FoldLosingInCell(s.lifecycles, x, o, meta, h, k.target,
      k.owner); }
    case ReincarnationClaim(x, _) =>
      if k.ReincarnationKey? { FoldLosingInCell(s.reincarnations, x, o, meta, h, k.target, k.owner); }
    case ObjectCapabilityClaim(x, _) =>
      if k.ObjectCapabilityKey? { FoldLosingInCell(s.objectCapabilities, x, o, meta, h, k.target, k.owner); }
    case PortCapabilityClaim(x, _) =>
      if k.PortCapabilityKey? { FoldLosingInCell(s.portCapabilities, x, o, meta, h, k.port, k.owner); }
  }
}

// What ingesting one record does to every claim key.
module Effects {
  import opened Words
  import opened Evidence
  import opened Ordering
  import opened State
  import opened Fold
  import opened Lifecycle
  import opened Ingest
  import opened Keys

  /** The claims sit at pairwise different keys of the owner. */
  ghost predicate Distinct(cs: seq<Claim>, o: Owner)
  {
    forall i, j :: 0 <= i < j < |cs| ==> KeyOf(cs[i], o) != KeyOf(cs[j], o)
  }

  function Find(cs: seq<Claim>, o: Owner, k: Key): (r: Option<Claim>)
    ensures r.Some? ==> r.value in cs && KeyOf(r.value, o) == k
    ensures r.None? ==> forall c :: c in cs ==> KeyOf(c, o) != k
  {
    if cs == [] then None else if KeyOf(cs[0], o) == k then Some(cs[0]) else Find(cs[1..], o, k)
  }

  lemma ClaimsDistinct(e: Evidence)
    ensures Distinct(ClaimsOf(e), OwnerOf(e))
  {
  }

  lemma {:induction false} WriteClaimsAt(s: RegistryState, cs: seq<Claim>, meta: Attestation, h: nat, k: Key)
    requires Distinct(cs, meta.owner)
    ensures var c := Find(cs, meta.owner, k);
            At(WriteClaims(s, cs, meta, h), k) == if c.Some? then WinAt(At(s, k), meta, c.value, h) else At(s, k)
    decreases |cs|
  {
    hide At, WriteClaim, WinAt;
    if cs != [] {
      assert Distinct(cs[1..], meta.owner);
      WriteClaimAt(s, cs[0], meta, h, k);
      WriteClaimsAt(WriteClaim(s, cs[0], meta, h), cs[1..], meta, h, k);
    }
  }

  lemma {:induction false} RingClaimsAt(s: RegistryState, cs: seq<Claim>, meta: Attestation, h: nat, k: Key)
    requires Distinct(cs, meta.owner)
    ensures At(RingClaims(s, cs, meta, h), k) ==
            if Find(cs, meta.owner, k).Some? then LoseAt(At(s, k), meta, h) else At(s, k)
    decreases |cs|
  {
    hide At, RingClaim, LoseAt;
    if cs != [] {
      assert Distinct(cs[1..], meta.owner);
      RingClaimAt(s, cs[0], meta, h, k);
      RingClaimsAt(RingClaim(s, cs[0], meta, h), cs[1..], meta, h, k);
    }
  }

  /** Two claims of one record for one key are the same claim. */
  lemma OneClaimPerKey(e: Evidence, c: Claim, d: Claim)
    requires c in ClaimsOf(e) && d in ClaimsOf(e) && KeyOf(c, OwnerOf(e)) == KeyOf(d, OwnerOf(e))
    ensures c == d
  {
    ClaimsDistinct(e);
  }

  lemma {:induction false} SelectDistinct(s: RegistryState, cs: seq<Claim>, meta: Attestation, wanted: KeyOutcome)
    requires Distinct(cs, meta.owner)
    ensures Distinct(Select(s, cs, meta, wanted), meta.owner)
    decreases |cs|
  {
    hide OutcomeOf, KeyOf;
    if cs != [] {
      SelectDistinct(s, cs[1..], meta, wanted);
      var rest := Select(s, cs[1..], meta, wanted);
      forall j | 0 <= j < |rest|
        ensures KeyOf(cs[0], meta.owner) != KeyOf(rest[j], meta.owner)
      {
        assert rest[j] in cs[1..];
      }
    }
  }

  /** Same content, as each table compares it. */
  predicate SameContent(v: Claim, c: Claim)
  {
    match (v, c)
    case (LifecycleClaim(_, a), LifecycleClaim(_, b)) => a.action == b.action && a.reason == b.reason
    case (ReincarnationClaim(_, a), ReincarnationClaim(_, b)) => a.from == b.from && a.serial == b.serial
      && a.reason == b.reason
    case _ => v == c
  }

  /** A key resolves by what it holds. */
  lemma OutcomeByKey(s: RegistryState, c: Claim, meta: Attestation)
    ensures var f := At(s, KeyOf(c, meta.owner));
            OutcomeOf(s, c, meta) ==
            if f.None? then Insert else CompareGeneration(f.value.meta, meta, SameContent(f.value.value, c))
  {
  }

  // ---- Decisions ----

  /** A reincarnation that would not raise the incarnation of a registered object. */
  ghost predicate Stale(s: RegistryState, e: Evidence)
  {
    e.payload.ReincarnateObject? && ObjectExists(s, e.payload.objectId)
      && TargetOf(e.payload.fromIncarnation) <= IncarnationOf(s, e.payload.objectId)
  }

  /** How a staged change treats the key of claim c. */
  ghost predicate Resolves(s: RegistryState, e: Evidence, staged: Staged, c: Claim)
  {
    var o := staged.meta.owner;
    var k := KeyOf(c, o);
    match OutcomeOf(s, c, staged.meta)
    case Insert => if Stale(s, e) then Find(staged.writes, o, k).None? && Find(staged.rings, o, k).Some?
                   else Find(staged.writes, o, k) == Some(c) && Find(staged.rings, o, k).None?
    case Superseded => Find(staged.writes, o, k).None? && Find(staged.rings, o, k).Some?
    case Duplicate => Find(staged.writes, o, k).None? && Find(staged.rings, o, k).None?
    case Collision => false
  }

  /** A staged change covers exactly the claims of the record, each by its own outcome. */
  ghost predicate Covers(s: RegistryState, e: Evidence, staged: Staged)
  {
    && Distinct(staged.writes, staged.meta.owner) && Distinct(staged.rings, staged.meta.owner)
    && (forall c :: c in staged.writes || c in staged.rings ==> c in ClaimsOf(e))
    && (forall c :: c in ClaimsOf(e) ==> Resolves(s, e, staged, c))
  }

  lemma PlacementStaged(s: RegistryState, l: Limits, e: Evidence, meta: Attestation)
    requires e.payload.Attach? || e.payload.Detach? || e.payload.Move?
    requires DecidePlacement(s, l, e, meta).staged.apply
    ensures DecidePlacement(s, l, e, meta).staged ==
            Staged(meta, Select(s, ClaimsOf(e), meta, Superseded), Select(s, ClaimsOf(e), meta, Insert), true)
    ensures forall c :: c in ClaimsOf(e) ==> OutcomeOf(s, c, meta) != Collision
    ensures forall c :: c in ClaimsOf(e) && c.PortClaim? ==> !PortCapacityReached(s, l, c.slotKey)
  {
    hide OutcomeOf, PortCapacityReached, ClaimsOf, IncarnationOf, PortExists, Fenced, ObjectExists;
  }

  lemma PlacementResolves(s: RegistryState, e: Evidence, staged: Staged, c: Claim)
    requires staged.meta.owner == OwnerOf(e) && !e.payload.ReincarnateObject?
    requires staged.rings == Select(s, ClaimsOf(e), staged.meta, Superseded)
    requires staged.writes == Select(s, ClaimsOf(e), staged.meta, Insert)
    requires c in ClaimsOf(e) && OutcomeOf(s, c, staged.meta) != Collision
    ensures Resolves(s, e, staged, c)
  {
    hide OutcomeOf, KeyOf, ClaimsOf;
    var o := staged.meta.owner;
    forall d | d in ClaimsOf(e) && KeyOf(d, o) == KeyOf(c, o)
      ensures d == c
    {
      OneClaimPerKey(e, c, d);
    }
  }

  lemma PlacementCovers(s: RegistryState, l: Limits, e: Evidence, meta: Attestation)
    requires e.payload.Attach? || e.payload.Detach? || e.payload.Move?
    requires meta.owner == OwnerOf(e)
    requires DecidePlacement(s, l, e, meta).staged.apply
    ensures Covers(s, e, DecidePlacement(s, l, e, meta).staged)
  {
    hide OutcomeOf, KeyOf, PortCapacityReached, ClaimsOf, DecidePlacement, Resolves;
    var staged := DecidePlacement(s, l, e, meta).staged;
    PlacementStaged(s, l, e, meta);
    ClaimsDistinct(e);
    SelectDistinct(s, ClaimsOf(e), meta, Insert);
    SelectDistinct(s, ClaimsOf(e), meta, Superseded);
    forall c | c in ClaimsOf(e)
      ensures Resolves(s, e, staged, c)
    {
      PlacementResolves(s, e, staged, c);
    }
  }

  lemma SingleCovers(s: RegistryState, l: Limits, e: Evidence, meta: Attestation)
    requires !(e.payload.Attach? || e.payload.Detach? || e.payload.Move?)
    requires meta.owner == OwnerOf(e)
    requires Decide(s, l, e, meta).staged.apply
    ensures Covers(s, e, Decide(s, l, e, meta).staged)
  {
    hide OutcomeOf, KeyOf;
    var c := ClaimsOf(e)[0];
    assert ClaimsOf(e) == [c];
    var staged := Decide(s, l, e, meta).staged;
    assert (staged.writes == [c] && staged.rings == []) || (staged.writes == [] && staged.rings == [c]);
  }

  lemma DecisionCovers(s: RegistryState, l: Limits, e: Evidence, meta: Attestation)
    requires meta.owner == OwnerOf(e)
    requires Decide(s, l, e, meta).staged.apply
    ensures Covers(s, e, Decide(s, l, e, meta).staged)
  {
    if e.payload.Attach? || e.payload.Detach? || e.payload.Move? {
      PlacementCovers(s, l, e, meta);
    } else {
      SingleCovers(s, l, e, meta);
    }
  }

  /** The key after an accepted claim, from the key before it. */
  ghost function After(s: RegistryState, e: Evidence, c: Claim, meta: Attestation, h: nat): Option<Folded<Claim>>
  {
    var f := At(s, KeyOf(c, meta.owner));
    match OutcomeOf(s, c, meta)
    case Insert => if Stale(s, e) then LoseAt(f, meta, h) else WinAt(f, meta, c, h)
    case Superseded => LoseAt(f, meta, h)
    case _ => f
  }

  /** Applying a covering change resolves every key on its own and leaves every other key alone. */
  lemma ApplyAt(s: RegistryState, e: Evidence, staged: Staged, h: nat, k: Key)
    requires staged.meta.owner == OwnerOf(e) && Covers(s, e, staged)
    ensures var c := Find(ClaimsOf(e), OwnerOf(e), k);
            At(ApplyChange(s, staged, h), k) ==
            if c.Some? then After(s, e, c.value, staged.meta, h) else At(s, k)
  {
    hide At, KeyOf, OutcomeOf, RingClaims, WriteClaims, ClaimsOf, WinAt, LoseAt;
    var o := staged.meta.owner;
    var s1 := RingClaims(s, staged.rings, staged.meta, h);
    RingClaimsAt(s, staged.rings, staged.meta, h, k);
    WriteClaimsAt(s1, staged.writes, staged.meta, h, k);
    var c := Find(ClaimsOf(e), o, k);
    if c.Some? {
      assert Resolves(s, e, staged, c.value);
    }
  }

  lemma PlacementKinds(e: Evidence, c: Claim)
    requires c in ClaimsOf(e) && (c.SubjectClaim? || c.PortClaim?)
    ensures e.payload.Attach? || e.payload.Detach? || e.payload.Move?
  {
  }

  // ---- One record against every key ----

  /** The record is accepted and changes the tables. */
  ghost predicate Applied(s: RegistryState, l: Limits, e: Evidence, receivedAt: I64, durable: bool, live: bool)
  {
    && ValidShape(e, l) && KnownSession(s, e) && durable
    && Decide(s, l, e, MetaOf(s, e, receivedAt, live)).staged.apply
  }

  lemma AppliedAccepted(s: RegistryState, l: Limits, e: Evidence, meta: Attestation)
    requires Decide(s, l, e, meta).staged.apply
    ensures IsAccepted(Decide(s, l, e, meta).disposition)
    ensures Decide(s, l, e, meta).staged.meta == meta
  {
    hide OutcomeOf, IncarnationOf, LabelConflict, ClaimsOf, PortExists, PortCapacityReached;
  }

  lemma IngestTables(s: RegistryState, l: Limits, h: nat, e: Evidence, receivedAt: I64, durable: bool, live: bool)
    ensures var s' := IngestRecord(s, l, h, e, receivedAt, durable, live).state;
            s' == (if Applied(s, l, e, receivedAt, durable, live)
                   then ApplyChange(s, Decide(s, l, e, MetaOf(s, e, receivedAt, live)).staged, h)
                     else s).(sessions := s'.sessions)
  {
    hide Decide, ApplyChange, ValidShape, NoteRecord;
    if ValidShape(e, l) && KnownSession(s, e) {
      var meta := MetaOf(s, e, receivedAt, live);
      if Decide(s, l, e, meta).staged.apply { AppliedAccepted(s, l, e, meta); }
    }
  }

  /** Ingesting one record resolves each key it touches on its own and leaves every other key alone. */
  lemma IngestAt(s: RegistryState, l: Limits, h: nat, e: Evidence, receivedAt: I64, durable: bool, live: bool, k: Key)
    ensures var s' := IngestRecord(s, l, h, e, receivedAt, durable, live).state;
            var c := Find(ClaimsOf(e), OwnerOf(e), k);
            At(s', k) == if Applied(s, l, e, receivedAt, durable, live) && c.Some?
                         then After(s, e, c.value, MetaOf(s, e, receivedAt, live), h) else At(s, k)
  {
    hide Decide, ApplyChange, IngestRecord, ValidShape, ClaimsOf, After, Covers, Find;
    var s' := IngestRecord(s, l, h, e, receivedAt, durable, live).state;
    IngestTables(s, l, h, e, receivedAt, durable, live);
    if Applied(s, l, e, receivedAt, durable, live) {
      var meta := MetaOf(s, e, receivedAt, live);
      var staged := Decide(s, l, e, meta).staged;
      AppliedAccepted(s, l, e, meta);
      DecisionCovers(s, l, e, meta);
      ApplyAt(s, e, staged, h, k);
      AtIgnoresSessions(ApplyChange(s, staged, h), s'.sessions, k);
    } else {
      AtIgnoresSessions(s, s'.sessions, k);
    }
  }

  lemma AtIgnoresSessions(s: RegistryState, sessions: map<Owner, SessionRecord>, k: Key)
    ensures At(s.(sessions := sessions), k) == At(s, k)
  {
  }

  /** Same identity, sources and sessions. */
  predicate SameCatalogue(s: RegistryState, t: RegistryState)
  {
    t.sources == s.sources && t.sessions == s.sessions && t.id == s.id && t.openedAt == s.openedAt
  }

  lemma ClaimKeepsCatalogue(s: RegistryState, c: Claim, meta: Attestation, h: nat)
    ensures SameCatalogue(s, WriteClaim(s, c, meta, h)) && SameCatalogue(s, RingClaim(s, c, meta, h))
  {
    hide FoldIn, FoldLosingIn;
  }

  lemma {:induction false} ClaimsKeepCatalogue(s: RegistryState, cs: seq<Claim>, meta: Attestation, h: nat)
    ensures SameCatalogue(s, WriteClaims(s, cs, meta, h)) && SameCatalogue(s, RingClaims(s, cs, meta, h))
    decreases |cs|
  {
    hide WriteClaim, RingClaim;
    if cs != [] {
      ClaimKeepsCatalogue(s, cs[0], meta, h);
      ClaimsKeepCatalogue(WriteClaim(s, cs[0], meta, h), cs[1..], meta, h);
      ClaimsKeepCatalogue(RingClaim(s, cs[0], meta, h), cs[1..], meta, h);
    }
  }

  /** Records never touch sources, session keys or the registry's identity. */
  lemma IngestKeepsCatalogue(s: RegistryState, l: Limits, h: nat, e: Evidence, receivedAt: I64, durable: bool,
                             live: bool)
    ensures var s' := IngestRecord(s, l, h, e, receivedAt, durable, live).state;
            s'.sources == s.sources && s'.sessions.Keys == s.sessions.Keys && s'.id == s.id && s'.openedAt == s.openedAt
  {
    hide Decide, WriteClaims, RingClaims, ValidShape, NoteRecord;
    if ValidShape(e, l) && KnownSession(s, e) {
      var staged := Decide(s, l, e, MetaOf(s, e, receivedAt, live)).staged;
      var s1 := RingClaims(s, staged.rings, staged.meta, h);
      ClaimsKeepCatalogue(s, staged.rings, staged.meta, h);
      ClaimsKeepCatalogue(s1, staged.writes, staged.meta, h);
    }
  }
}
