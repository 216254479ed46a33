// The image of a reachable state: its records always fit, so only its counts decide whether
// a compacted store can be opened again.

module Images {
  import opened Words
  import opened Evidence
  import opened Ordering
  import opened State
  import opened Fold
  import opened Ingest
  import opened Keys
  import opened Sessions
  import opened Invariants
  import opened Bounds
  import opened Reachable
  import opened Codec
  import opened Records
  import opened StateImage

  // ---- Source descriptors stay within the string limit ----

  lemma SourcesFitStep(s: RegistryState, l: Limits, h: nat, ev: Event)
    requires CatalogueOk(s) && SourcesFit(s.sources, l)
    ensures SourcesFit(Step(s, l, h, ev).sources, l)
  {
    hide IngestRecord, ClearVolatile, OpenSession;
    match ev
    case Ingesting(e, receivedAt, durable) => Effects.IngestKeepsCatalogue(s, l, h, e, receivedAt, durable, true);
    case Opening(d, incarnation, openedAt, durable) => SourcesFitOpen(s, l, d, incarnation, openedAt, durable);
    case Closing(_, _) =>
    case Restarting(_) => ClearKeepsSources(s);
  }

  lemma SourcesFitOpen(s: RegistryState, l: Limits, d: SourceDescriptor, incarnation: U64, openedAt: I64, durable: bool)
    requires SourcesFit(s.sources, l)
    ensures SourcesFit(OpenSession(s, l, d, incarnation, openedAt, durable).sources, l)
  {
    hide OpenSession, SessionAfterOpen, OpenAnswer;
    OpenEffect(s, l, d, incarnation, openedAt, durable);
    if OpenAccepted(OpenAnswer(s, l, d, incarnation, durable)) {
      OpenChecked(s, l, d, incarnation, durable);
    }
  }

  // ---- Records ----

  lemma RecordAt(s: RegistryState, l: Limits, h: nat, k: Key)
    requires CatalogueOk(s) && RecordsOk(s) && RingsOk(s, h) && ValuesOk(s, l) && h <= l.maxHistoryPerKey
            && At(s, k).Some?
    ensures OwnerNamed(KeyOwner(k)) && RecordFits(At(s, k).value, l) && ClaimOk(At(s, k).value.value, l)
  {
    hide At, ClaimOk;
    var f := At(s, k).value;
    assert RecordOk(s, k, f.meta);
    assert RingOk(k, f, h);
    assert SessionOk(s.sources, f.meta.owner);
  }

  ghost predicate Sound(s: RegistryState, l: Limits, h: nat)
  {
    CatalogueOk(s) && RecordsOk(s) && RingsOk(s, h) && ValuesOk(s, l) && h <= l.maxHistoryPerKey
  }

  lemma SoundRecord(s: RegistryState, l: Limits, h: nat, k: Key)
    requires Sound(s, l, h) && At(s, k).Some?
    ensures OwnerNamed(KeyOwner(k)) && RecordFits(At(s, k).value, l) && ClaimOk(At(s, k).value.value, l)
  {
    hide At, ClaimOk;
    RecordAt(s, l, h, k);
  }

  /** A table whose records sit at sound keys, and whose sound claims carry accepted values, fits. */
  lemma OwnedFits<P(!new), V(!new)>(s: RegistryState, l: Limits, h: nat, t: Table<P, Owner, V>, value: Codec<V>,
                                    key: (P, Owner) -> Key, claim: (P, V) -> Claim)
    requires Sound(s, l, h)
    requires forall p, o :: At(s, key(p, o)) == Lift(Cell(t, p, o), v => claim(p, v)) && KeyOwner(key(p, o)) == o
    requires forall p, v :: ClaimOk(claim(p, v), l) ==> Accepts(value, v)
    ensures RecordsFit(t, value, l)
  {
    hide Sound, At, ClaimOk;
    forall p, o | p in t && o in t[p]
      ensures OwnerNamed(o) && RecordFits(t[p][o], l) && Accepts(value, t[p][o].value)
    {
      assert Cell(t, p, o) == Some(t[p][o]);
      SoundRecord(s, l, h, key(p, o));
    }
  }

  lemma RegistrationsFit(s: RegistryState, l: Limits, h: nat)
    requires Sound(s, l, h)
    ensures RecordsFit(s.objects, ObjectC(l), l) && RecordsFit(s.endpoints, EndpointC(l), l)
  {
    hide Sound, ObjectC, EndpointC, RecordsFit;
    forall d
      ensures Accepts(ObjectC(l), d) <==> ValidObjectDescriptor(d, l)
    {
      ObjectAccepts(l, d);
    }
    forall d
      ensures Accepts(EndpointC(l), d) <==> ValidEndpointDescriptor(d, l)
    {
      EndpointAccepts(l, d);
    }
    OwnedFits(s, l, h, s.objects, ObjectC(l), (x, o) => ObjectKey(x, o), (x, v) => ObjectClaim(x, v));
    OwnedFits(s, l, h, s.endpoints, EndpointC(l), (x, o) => EndpointKey(x, o), (x, v) => EndpointClaim(x, v));
  }

  lemma PlacementsFitIn(s: RegistryState, l: Limits, h: nat)
    requires Sound(s, l, h) && SlotsFiled(s.ports)
    ensures RecordsFit(s.subjects, SubjectC(), l) && SlotsFit(s.ports, l)
  {
    SubjectsFitIn(s, l, h);
    SlotsFitIn(s, l, h);
  }

  lemma SubjectsFitIn(s: RegistryState, l: Limits, h: nat)
    requires Sound(s, l, h)
    ensures RecordsFit(s.subjects, SubjectC(), l)
  {
    hide Sound, SubjectC, RecordsFit;
    forall v: SubjectValue | v.objectIncarnation != 0
      ensures Accepts(SubjectC(), v)
    {
      PlacementValuesAccept(v, PortValue(0, true, SideRef(0, 0)));
    }
    OwnedFits(s, l, h, s.subjects, SubjectC(), (x, o) => SubjectKey(x, o), (x, v) => SubjectClaim(x, v));
  }

  lemma SlotFitsIn(s: RegistryState, l: Limits, h: nat, p: PortRef, key: SlotKey)
    requires Sound(s, l, h) && SlotsFiled(s.ports) && p in s.ports && key in s.ports[p]
    ensures SlotFits(p, key, s.ports[p][key], l)
  {
    hide Sound;
    assert Cell(s.ports, p, key) == Some(s.ports[p][key]);
    SoundRecord(s, l, h, PortKey(key));
  }

  lemma SlotsFitIn(s: RegistryState, l: Limits, h: nat)
    requires Sound(s, l, h) && SlotsFiled(s.ports)
    ensures SlotsFit(s.ports, l)
  {
    hide Sound, SlotsFiled, SlotFits;
    forall p, key | p in s.ports && key in s.ports[p]
      ensures SlotFits(p, key, s.ports[p][key], l)
    {
      SlotFitsIn(s, l, h, p, key);
    }
  }

  lemma LifetimesFitIn(s: RegistryState, l: Limits, h: nat)
    requires Sound(s, l, h)
    ensures RecordsFit(s.lifecycles, LifecycleC(l), l) && RecordsFit(s.reincarnations, ReincarnationC(l), l)
  {
    hide Sound, LifecycleC, ReincarnationC, RecordsFit;
    forall v: LifecycleValue
      ensures Accepts(LifecycleC(l), v) <==> Fits(v.reason, l.maxStringBytes)
    {
      LifecycleAccepted(l, v);
    }
    forall v: ReincarnationValue
      ensures Accepts(ReincarnationC(l), v) <==>
              ReincarnationStep(v) && Fits(v.serial, l.maxStringBytes) && Fits(v.reason, l.maxStringBytes)
    {
      ReincarnationAccepted(l, v);
    }
    OwnedFits(s, l, h, s.lifecycles, LifecycleC(l), (x, o) => LifecycleKey(x, o), (x, v) => LifecycleClaim(x, v));
    OwnedFits(s, l, h, s.reincarnations, ReincarnationC(l), (x, o) => ReincarnationKey(x, o),
      (x, v) => ReincarnationClaim(x, v));
  }

  lemma CapabilitiesFitIn(s: RegistryState, l: Limits, h: nat)
    requires Sound(s, l, h)
    ensures RecordsFit(s.objectCapabilities, NominalC(l), l) && RecordsFit(s.portCapabilities, PortCapabilityC(l), l)
  {
    hide Sound, NominalC, PortCapabilityC, RecordsFit;
    forall v: NominalCapability
      ensures Accepts(NominalC(l), v) <==> Fits(v.code, l.maxCodeBytes)
    {
      NominalAccepts(l, v);
    }
    forall v: PortCapability
      ensures Accepts(PortCapabilityC(l), v) <==> ValidPortCapability(v, l)
    {
      PortCapabilityAccepts(l, v);
    }
    OwnedFits(s, l, h, s.objectCapabilities, NominalC(l), (x, o) => ObjectCapabilityKey(x, o),
      (x, v) => ObjectCapabilityClaim(x, v));
    OwnedFits(s, l, h, s.portCapabilities, PortCapabilityC(l), (x, o) => PortCapabilityKey(x, o),
      (x, v) => PortCapabilityClaim(x, v));
  }

  /** In a reachable state every record is one the image reader accepts. */
  lemma GoodContents(s: RegistryState, l: Limits, h: nat)
    requires Good(s, l, h) && SourcesFit(s.sources, l) && h <= l.maxHistoryPerKey
    ensures ContentsFit(s, l)
  {
    hide RecordsFit, SlotsFit, RecordsOk, RingsOk, ValuesOk, SizesOk, ObjectC, EndpointC, SubjectC, LifecycleC,
         ReincarnationC, NominalC, PortCapabilityC, SourcesFit;
    assert Sound(s, l, h);
    RegistrationsFit(s, l, h);
    PlacementsFitIn(s, l, h);
    LifetimesFitIn(s, l, h);
    CapabilitiesFitIn(s, l, h);
    forall o | o in s.sessions
      ensures OwnerNamed(o)
    {
      assert SessionOk(s.sources, o);
    }
  }
}
