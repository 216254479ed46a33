// The evidence record on the wire: header, kind, and a payload whose form the kind decides.

module EvidenceCodec {
  import opened Words
  import opened Evidence
  import opened State
  import opened Codec
  import opened Wire
  import opened Records

  // ---- Header ----

  type HeaderTuple = (Id, (Id, (U64, (U64, (I64, (ProvenanceClass, (Text, U32)))))))
  function MakeHeader(p: HeaderTuple): Header
  {
    Header(p.0, p.1.0, p.1.1.0, p.1.1.1.0, p.1.1.1.1.0, p.1.1.1.1.1.0, p.1.1.1.1.1.1.0, p.1.1.1.1.1.1.1)
  }
  function HeaderParts(h: Header): HeaderTuple
  {
    (h.id, (h.source, (h.incarnation, (h.generation, (h.observedAt, (h.provenance, (h.detail, h.schemaVersion)))))))
  }
  function HeaderRaw(l: Limits): Codec<HeaderTuple>
  {
    Pair(Identity(), Pair(Identity(), Pair(Word64(), Pair(Word64(),
      Pair(Signed(), Pair(ProvenanceC(), Pair(TextOf(l.maxStringBytes), Word32())))))))
  }
  predicate HeaderNamed(h: Header)
  {
    h.id != 0 && h.source != 0 && h.incarnation != 0 && h.generation != 0 && h.schemaVersion == EVIDENCE_SCHEMA_VERSION
  }
  function HeaderC(l: Limits): Codec<Header> { Refine(Iso(HeaderRaw(l), MakeHeader, HeaderParts), HeaderNamed) }

  lemma HeaderLawful(l: Limits)
    ensures Lawful(HeaderC(l))
  {
    hide Lawful, Identity, Word64, Signed, ProvenanceC, TextOf, Word32;
    IdentityLawful();
    ScalarsLawful();
    SignedLawful();
    KindsLawful();
    var text := TextOf(l.maxStringBytes);
    TextLawful(l.maxStringBytes);
    PairLawful(text, Word32());
    PairLawful(ProvenanceC(), Pair(text, Word32()));
    PairLawful(Signed(), Pair(ProvenanceC(), Pair(text, Word32())));
    PairLawful(Word64(), Pair(Signed(), Pair(ProvenanceC(), Pair(text, Word32()))));
    PairLawful(Word64(), Pair(Word64(), Pair(Signed(), Pair(ProvenanceC(), Pair(text, Word32())))));
    PairLawful(Identity(), Pair(Word64(), Pair(Word64(), Pair(Signed(), Pair(ProvenanceC(), Pair(text, Word32()))))));
    PairLawful(Identity(), Pair(Identity(), Pair(Word64(),
      Pair(Word64(), Pair(Signed(), Pair(ProvenanceC(), Pair(text, Word32())))))));
    IsoLawful(HeaderRaw(l), MakeHeader, HeaderParts);
    RefineLawful(Iso(HeaderRaw(l), MakeHeader, HeaderParts), HeaderNamed);
  }

  lemma HeaderAccepts(l: Limits, h: Header)
    ensures Accepts(HeaderC(l), h) <==> HeaderNamed(h) && Fits(h.detail, l.maxStringBytes)
  {
    hide Accepts, Total, Identity, Word64, Signed, ProvenanceC, TextOf, Word32;
    IdentityLawful();
    ScalarsTotal();
    SignedLawful();
    KindsLawful();
    var text := TextOf(l.maxStringBytes);
    var p := HeaderParts(h);
    TextAccepts(l.maxStringBytes, h.detail);
    TotalAccepts(Identity(), h.id);
    TotalAccepts(Identity(), h.source);
    TotalAccepts(Word64(), h.incarnation);
    TotalAccepts(Word64(), h.generation);
    TotalAccepts(Signed(), h.observedAt);
    TotalAccepts(ProvenanceC(), h.provenance);
    TotalAccepts(Word32(), h.schemaVersion);
    PairAccepts(text, Word32(), p.1.1.1.1.1.1);
    PairAccepts(ProvenanceC(), Pair(text, Word32()), p.1.1.1.1.1);
    PairAccepts(Signed(), Pair(ProvenanceC(), Pair(text, Word32())), p.1.1.1.1);
    PairAccepts(Word64(), Pair(Signed(), Pair(ProvenanceC(), Pair(text, Word32()))), p.1.1.1);
    PairAccepts(Word64(), Pair(Word64(), Pair(Signed(), Pair(ProvenanceC(), Pair(text, Word32())))), p.1.1);
    PairAccepts(Identity(), Pair(Word64(), Pair(Word64(), Pair(Signed(), Pair(ProvenanceC(), Pair(text, Word32()))))),
      p.1);
    PairAccepts(Identity(), Pair(Identity(), Pair(Word64(),
      Pair(Word64(), Pair(Signed(), Pair(ProvenanceC(), Pair(text, Word32())))))), p);
    IsoAccepts(HeaderRaw(l), MakeHeader, HeaderParts, h);
    RefineAccepts(Iso(HeaderRaw(l), MakeHeader, HeaderParts), HeaderNamed, h);
  }

  // ---- Payloads, one form per kind ----

  const NO_SIDE: SideRef := SideRef(0, 0)
  const NOWHERE: PortRef := PortRef(0, 0)
  const NO_NOMINAL: NominalCapability := NominalCapability(0, 0, 0, 0, 0, 0, false, [])
  const NO_CAPABILITY: PortCapability := PortCapability(0, 0, 0, 0)
  const NO_OBJECT: ObjectDescriptor := ObjectDescriptor(0, 0, [], [], [], [], NO_NOMINAL)
  const NO_ENDPOINT: EndpointDescriptor := EndpointDescriptor(0, 0, [], [], 0, NO_CAPABILITY)

  function KindOf(p: Payload): U16
  {
    match p
    case RegisterObject(_) => 1
    case RegisterEndpoint(_) => 2
    case Attach(_, _, _, _) => 3
    case Detach(_, _, _, _, _) => 4
    case Move(_, _, _, _, _, _) => 5
    case PublishObjectCapability(_, _) => 6
    case PublishPortCapability(_, _) => 7
    case SetLifecycle(_, _, _, _) => 8
    case ReincarnateObject(_, _, _, _) => 9
  }

  function ToRegisterObject(d: ObjectDescriptor): Payload { RegisterObject(d) }
  function FromRegisterObject(p: Payload): ObjectDescriptor
  {
    if p.RegisterObject? then p.objectDescriptor else NO_OBJECT
  }

  function ToRegisterEndpoint(d: EndpointDescriptor): Payload { RegisterEndpoint(d) }
  function FromRegisterEndpoint(p: Payload): EndpointDescriptor
  {
    if p.RegisterEndpoint? then p.endpointDescriptor else NO_ENDPOINT
  }

  type AttachTuple = (SideRef, (PortRef, (U64, U32)))
  function ToAttach(t: AttachTuple): Payload { Attach(t.0, t.1.0, t.1.1.0, t.1.1.1) }
  function FromAttach(p: Payload): AttachTuple
  {
    if p.Attach? then (p.subject, (p.port, (p.objectIncarnation, p.slot))) else (NO_SIDE, (NOWHERE, (0, 0)))
  }

  type DetachTuple = (SideRef, (U64, (bool, (PortRef, U32))))
  function ToDetach(t: DetachTuple): Payload { Detach(t.0, t.1.0, t.1.1.0, t.1.1.1.0, t.1.1.1.1) }
  function FromDetach(p: Payload): DetachTuple
  {
    if p.Detach? then (p.subject, (p.objectIncarnation, (p.hasFromPort, (p.fromPort, p.slot))))
      else (NO_SIDE, (0, (false, (NOWHERE, 0))))
  }

  type MoveTuple = (SideRef, (U64, (PortRef, (PortRef, (U32, U32)))))
  function ToMove(t: MoveTuple): Payload { Move(t.0, t.1.0, t.1.1.0, t.1.1.1.0, t.1.1.1.1.0, t.1.1.1.1.1) }
  function FromMove(p: Payload): MoveTuple
  {
    if p.Move? then (p.subject, (p.objectIncarnation, (p.from, (p.to, (p.fromSlot, p.toSlot)))))
      else (NO_SIDE, (0, (NOWHERE, (NOWHERE, (0, 0)))))
  }

  function ToObjectCapability(t: (Id, NominalCapability)): Payload { PublishObjectCapability(t.0, t.1) }
  function FromObjectCapability(p: Payload): (Id, NominalCapability)
  {
    if p.PublishObjectCapability? then (p.objectId, p.nominal) else (0, NO_NOMINAL)
  }

  function ToPortCapability(t: (PortRef, PortCapability)): Payload { PublishPortCapability(t.0, t.1) }
  function FromPortCapability(p: Payload): (PortRef, PortCapability)
  {
    if p.PublishPortCapability? then (p.port, p.capability) else (NOWHERE, NO_CAPABILITY)
  }

  type LifecycleTuple = (Id, (U64, (LifecycleAction, Text)))
  function ToLifecycle(t: LifecycleTuple): Payload { SetLifecycle(t.0, t.1.0, t.1.1.0, t.1.1.1) }
  function FromLifecycle(p: Payload): LifecycleTuple
  {
    if p.SetLifecycle? then (p.objectId, (p.objectIncarnation, (p.action, p.reason))) else (0, (0, (Present, [])))
  }

  type ReincarnateTuple = (Id, (U64, (Text, Text)))
  function ToReincarnate(t: ReincarnateTuple): Payload { ReincarnateObject(t.0, t.1.0, t.1.1.0, t.1.1.1) }
  function FromReincarnate(p: Payload): ReincarnateTuple
  {
    if p.ReincarnateObject? then (p.objectId, (p.fromIncarnation, (p.serial, p.reason))) else (0, (0, ([], [])))
  }

  /** A claim about an object names one of its incarnations. */
  predicate Dated(p: Payload)
  {
    match p
    case Attach(_, _, incarnation, _) => incarnation != 0
    case Detach(_, incarnation, _, _, _) => incarnation != 0
    case Move(_, incarnation, _, _, _, _) => incarnation != 0
    case SetLifecycle(_, incarnation, _, _) => incarnation != 0
    case ReincarnateObject(_, from, _, _) => from != 0
    case _ => true
  }

  function AttachRaw(): Codec<AttachTuple> { Pair(SideRefC(), Pair(PortRefC(), Pair(Word64(), Word32()))) }
  function DetachRaw(): Codec<DetachTuple>
  {
    Pair(SideRefC(), Pair(Word64(), Pair(Flag(), Pair(PortRefC(), Word32()))))
  }
  function MoveRaw(): Codec<MoveTuple>
  {
    Pair(SideRefC(), Pair(Word64(), Pair(PortRefC(), Pair(PortRefC(), Pair(Word32(), Word32())))))
  }
  function LifecycleRaw(l: Limits): Codec<LifecycleTuple>
  {
    Pair(Identity(), Pair(Word64(), Pair(ActionC(), TextOf(l.maxStringBytes))))
  }
  function ReincarnateRaw(l: Limits): Codec<ReincarnateTuple>
  {
    Pair(Identity(), Pair(Word64(), Pair(TextOf(l.maxStringBytes), TextOf(l.maxStringBytes))))
  }

  function KindC(l: Limits, kind: U16): Codec<Payload>
  {
    if kind == 1 then Iso(ObjectC(l), ToRegisterObject, FromRegisterObject)
    else if kind == 2 then Iso(EndpointC(l), ToRegisterEndpoint, FromRegisterEndpoint)
    else if kind == 3 then Iso(AttachRaw(), ToAttach, FromAttach)
    else if kind == 4 then Iso(DetachRaw(), ToDetach, FromDetach)
    else if kind == 5 then Iso(MoveRaw(), ToMove, FromMove)
    else if kind == 6 then Iso(Pair(Identity(), NominalC(l)), ToObjectCapability, FromObjectCapability)
    else if kind == 7 then Iso(Pair(PortRefC(), PortCapabilityC(l)), ToPortCapability, FromPortCapability)
    else if kind == 8 then Iso(LifecycleRaw(l), ToLifecycle, FromLifecycle)
    else if kind == 9 then Iso(ReincarnateRaw(l), ToReincarnate, FromReincarnate)
    else Never()
  }

  function PayloadC(l: Limits, kind: U16): Codec<Payload> { Refine(KindC(l, kind), Dated) }

  lemma PlacementKindsLawful(l: Limits)
    ensures Lawful(KindC(l, 3)) && Lawful(KindC(l, 4)) && Lawful(KindC(l, 5))
  {
    hide Lawful, SideRefC, PortRefC, Word64, Word32, Flag;
    ReferencesLawful();
    ScalarsLawful();
    FlagLawful();
    PairLawful(Word64(), Word32());
    PairLawful(PortRefC(), Pair(Word64(), Word32()));
    PairLawful(SideRefC(), Pair(PortRefC(), Pair(Word64(), Word32())));
    IsoLawful(AttachRaw(), ToAttach, FromAttach);
    PairLawful(PortRefC(), Word32());
    PairLawful(Flag(), Pair(PortRefC(), Word32()));
    PairLawful(Word64(), Pair(Flag(), Pair(PortRefC(), Word32())));
    PairLawful(SideRefC(), Pair(Word64(), Pair(Flag(), Pair(PortRefC(), Word32()))));
    IsoLawful(DetachRaw(), ToDetach, FromDetach);
    PairLawful(Word32(), Word32());
    PairLawful(PortRefC(), Pair(Word32(), Word32()));
    PairLawful(PortRefC(), Pair(PortRefC(), Pair(Word32(), Word32())));
    PairLawful(Word64(), Pair(PortRefC(), Pair(PortRefC(), Pair(Word32(), Word32()))));
    PairLawful(SideRefC(), Pair(Word64(), Pair(PortRefC(), Pair(PortRefC(), Pair(Word32(), Word32())))));
    IsoLawful(MoveRaw(), ToMove, FromMove);
  }

  lemma CatalogueKindsLawful(l: Limits)
    ensures Lawful(KindC(l, 1)) && Lawful(KindC(l, 2)) && Lawful(KindC(l, 6)) && Lawful(KindC(l, 7))
  {
    hide Lawful, PortRefC, Identity, ObjectC, EndpointC, NominalC, PortCapabilityC;
    IdentityLawful();
    ReferencesLawful();
    ObjectLawful(l);
    EndpointLawful(l);
    NominalLawful(l);
    PortCapabilityLawful(l);
    PairLawful(Identity(), NominalC(l));
    PairLawful(PortRefC(), PortCapabilityC(l));
    IsoLawful(ObjectC(l), ToRegisterObject, FromRegisterObject);
    IsoLawful(EndpointC(l), ToRegisterEndpoint, FromRegisterEndpoint);
    IsoLawful(Pair(Identity(), NominalC(l)), ToObjectCapability, FromObjectCapability);
    IsoLawful(Pair(PortRefC(), PortCapabilityC(l)), ToPortCapability, FromPortCapability);
  }

  lemma LifecycleKindsLawful(l: Limits)
    ensures Lawful(KindC(l, 8)) && Lawful(KindC(l, 9))
  {
    hide Lawful, Identity, Word64, ActionC, TextOf;
    IdentityLawful();
    ScalarsLawful();
    MoreKindsLawful();
    var text := TextOf(l.maxStringBytes);
    TextLawful(l.maxStringBytes);
    PairLawful(ActionC(), text);
    PairLawful(Word64(), Pair(ActionC(), text));
    PairLawful(Identity(), Pair(Word64(), Pair(ActionC(), text)));
    PairLawful(text, text);
    PairLawful(Word64(), Pair(text, text));
    PairLawful(Identity(), Pair(Word64(), Pair(text, text)));
    IsoLawful(LifecycleRaw(l), ToLifecycle, FromLifecycle);
    IsoLawful(ReincarnateRaw(l), ToReincarnate, FromReincarnate);
  }

  lemma PayloadLawful(l: Limits, kind: U16)
    ensures Lawful(PayloadC(l, kind))
  {
    hide Lawful;
    PlacementKindsLawful(l);
    CatalogueKindsLawful(l);
    LifecycleKindsLawful(l);
    NeverLawful<Payload>();
    assert !(1 <= kind <= 9) ==> KindC(l, kind) == Never();
    assert Lawful(KindC(l, kind)) by {
      if kind == 1 { } else if kind == 2 { } else if kind == 3 { } else if kind == 4 { } else if kind == 5 { }
      else if kind == 6 { } else if kind == 7 { } else if kind == 8 { } else if kind == 9 { } else { }
    }
    RefineLawful(KindC(l, kind), Dated);
  }

  // ---- The record ----

  function MakeEvidence(p: (Header, (U16, Payload))): Evidence { Evidence(p.0, p.1.1) }
  function EvidenceParts(e: Evidence): (Header, (U16, Payload)) { (e.header, (KindOf(e.payload), e.payload)) }

  function EvidenceRaw(l: Limits): Codec<(Header, (U16, Payload))>
  {
    Pair(HeaderC(l), Depend(Word16(), (k: U16) => PayloadC(l, k)))
  }
  function EvidenceC(l: Limits): Codec<Evidence> { Iso(EvidenceRaw(l), MakeEvidence, EvidenceParts) }

  /** A payload is written in the form of its own kind only. */
  lemma KindForced(l: Limits, kind: U16, p: Payload)
    requires PayloadC(l, kind).sound(p)
    ensures KindOf(p) == kind
  {
    hide ObjectC, EndpointC, AttachRaw, DetachRaw, MoveRaw, NominalC, PortCapabilityC, LifecycleRaw, ReincarnateRaw,
         PortRefC, Identity;
    hide Iso;
    assert KindC(l, kind).sound(p);
    if kind == 1 { IsoSound(ObjectC(l), ToRegisterObject, FromRegisterObject, p); }
    else if kind == 2 { IsoSound(EndpointC(l), ToRegisterEndpoint, FromRegisterEndpoint, p); }
    else if kind == 3 { IsoSound(AttachRaw(), ToAttach, FromAttach, p); }
    else if kind == 4 { IsoSound(DetachRaw(), ToDetach, FromDetach, p); }
    else if kind == 5 { IsoSound(MoveRaw(), ToMove, FromMove, p); }
    else if kind == 6 { IsoSound(Pair(Identity(), NominalC(l)), ToObjectCapability, FromObjectCapability, p); }
    else if kind == 7 { IsoSound(Pair(PortRefC(), PortCapabilityC(l)), ToPortCapability, FromPortCapability, p); }
    else if kind == 8 { IsoSound(LifecycleRaw(l), ToLifecycle, FromLifecycle, p); }
    else if kind == 9 { IsoSound(ReincarnateRaw(l), ToReincarnate, FromReincarnate, p); }
  }

  lemma IsoSound<A, B>(c: Codec<A>, to: A -> B, from: B -> A, v: B)
    requires Iso(c, to, from).sound(v)
    ensures to(from(v)) == v
  {
  }

  /** The evidence codec is lawful: its printer and its parser undo each other exactly. */
  lemma EvidenceLawful(l: Limits)
    ensures Lawful(EvidenceC(l))
  {
    hide Lawful, HeaderC, PayloadC, Word16, KindOf;
    HeaderLawful(l);
    ScalarsLawful();
    var forms := (k: U16) => PayloadC(l, k);
    forall kind: U16
      ensures Lawful(forms(kind))
    {
      PayloadLawful(l, kind);
    }
    DependLawful(Word16(), forms);
    PairLawful(HeaderC(l), Depend(Word16(), forms));
    assert EvidenceRaw(l) == Pair(HeaderC(l), Depend(Word16(), forms));
    forall u: (Header, (U16, Payload)) | EvidenceRaw(l).sound(u)
      ensures EvidenceParts(MakeEvidence(u)) == u
    {
      KindForced(l, u.1.0, u.1.1);
    }
    IsoLawful(EvidenceRaw(l), MakeEvidence, EvidenceParts);
  }

  // ---- Which records the codec carries ----

  /** What the parser checks of a payload. */
  predicate Readable(p: Payload, l: Limits)
  {
    && Dated(p)
    && match p
       case RegisterObject(d) => ValidObjectDescriptor(d, l)
       case RegisterEndpoint(d) => ValidEndpointDescriptor(d, l)
       case PublishObjectCapability(_, c) => Fits(c.code, l.maxCodeBytes)
       case PublishPortCapability(_, c) => ValidPortCapability(c, l)
       case SetLifecycle(_, _, _, reason) => Fits(reason, l.maxStringBytes)
       case ReincarnateObject(_, _, serial, reason) => Fits(serial, l.maxStringBytes) && Fits(reason, l.maxStringBytes)
       case _ => true
  }

  lemma PlacementAccepts(l: Limits, p: Payload)
    requires p.Attach? || p.Detach? || p.Move?
    ensures Accepts(KindC(l, KindOf(p)), p)
  {
    hide Total, Accepts, SideRefC, PortRefC, Word64, Word32, Flag, Iso;
    ReferencesTotal();
    ScalarsTotal();
    FlagLawful();
    PairTotal(Word64(), Word32());
    PairTotal(PortRefC(), Pair(Word64(), Word32()));
    PairTotal(SideRefC(), Pair(PortRefC(), Pair(Word64(), Word32())));
    PairTotal(PortRefC(), Word32());
    PairTotal(Flag(), Pair(PortRefC(), Word32()));
    PairTotal(Word64(), Pair(Flag(), Pair(PortRefC(), Word32())));
    PairTotal(SideRefC(), Pair(Word64(), Pair(Flag(), Pair(PortRefC(), Word32()))));
    PairTotal(Word32(), Word32());
    PairTotal(PortRefC(), Pair(Word32(), Word32()));
    PairTotal(PortRefC(), Pair(PortRefC(), Pair(Word32(), Word32())));
    PairTotal(Word64(), Pair(PortRefC(), Pair(PortRefC(), Pair(Word32(), Word32()))));
    PairTotal(SideRefC(), Pair(Word64(), Pair(PortRefC(), Pair(PortRefC(), Pair(Word32(), Word32())))));
    if p.Attach? {
      TotalAccepts(AttachRaw(), FromAttach(p));
      IsoAccepts(AttachRaw(), ToAttach, FromAttach, p);
    } else if p.Detach? {
      TotalAccepts(DetachRaw(), FromDetach(p));
      IsoAccepts(DetachRaw(), ToDetach, FromDetach, p);
    } else {
      TotalAccepts(MoveRaw(), FromMove(p));
      IsoAccepts(MoveRaw(), ToMove, FromMove, p);
    }
  }

  lemma CatalogueAccepts(l: Limits, p: Payload)
    requires p.RegisterObject? || p.RegisterEndpoint? || p.PublishObjectCapability? || p.PublishPortCapability?
    ensures Accepts(KindC(l, KindOf(p)), p) <==> Readable(p, l)
  {
    hide Total, Accepts, PortRefC, Identity, ObjectC, EndpointC, NominalC, PortCapabilityC, Iso, Pair;
    IdentityLawful();
    ReferencesTotal();
    match p
    case RegisterObject(d) =>
      ObjectAccepts(l, d);
      IsoAccepts(ObjectC(l), ToRegisterObject, FromRegisterObject, p);
    case RegisterEndpoint(d) =>
      EndpointAccepts(l, d);
      IsoAccepts(EndpointC(l), ToRegisterEndpoint, FromRegisterEndpoint, p);
    case PublishObjectCapability(x, c) =>
      NominalAccepts(l, c);
      TotalAccepts(Identity(), x);
      PairAccepts(Identity(), NominalC(l), (x, c));
      IsoAccepts(Pair(Identity(), NominalC(l)), ToObjectCapability, FromObjectCapability, p);
    case PublishPortCapability(port, c) =>
      PortCapabilityAccepts(l, c);
      TotalAccepts(PortRefC(), port);
      PairAccepts(PortRefC(), PortCapabilityC(l), (port, c));
      IsoAccepts(Pair(PortRefC(), PortCapabilityC(l)), ToPortCapability, FromPortCapability, p);
  }

  lemma LifecycleAccepts(l: Limits, p: Payload)
    requires p.SetLifecycle? || p.ReincarnateObject?
    ensures Accepts(KindC(l, KindOf(p)), p) && Dated(p) <==> Readable(p, l)
  {
    hide Total, Accepts, Identity, Word64, ActionC, TextOf, Iso, Pair;
    IdentityLawful();
    ScalarsTotal();
    MoreKindsLawful();
    var text := TextOf(l.maxStringBytes);
    if p.SetLifecycle? {
      var t := FromLifecycle(p);
      TotalAccepts(Identity(), t.0);
      TotalAccepts(Word64(), t.1.0);
      TotalAccepts(ActionC(), t.1.1.0);
      TextAccepts(l.maxStringBytes, t.1.1.1);
      PairAccepts(ActionC(), text, t.1.1);
      PairAccepts(Word64(), Pair(ActionC(), text), t.1);
      PairAccepts(Identity(), Pair(Word64(), Pair(ActionC(), text)), t);
      IsoAccepts(LifecycleRaw(l), ToLifecycle, FromLifecycle, p);
    } else {
      var t := FromReincarnate(p);
      TotalAccepts(Identity(), t.0);
      TotalAccepts(Word64(), t.1.0);
      TextAccepts(l.maxStringBytes, t.1.1.0);
      TextAccepts(l.maxStringBytes, t.1.1.1);
      PairAccepts(text, text, t.1.1);
      PairAccepts(Word64(), Pair(text, text), t.1);
      PairAccepts(Identity(), Pair(Word64(), Pair(text, text)), t);
      IsoAccepts(ReincarnateRaw(l), ToReincarnate, FromReincarnate, p);
    }
  }

  /** The codec carries exactly the records its parser's checks admit. */
  lemma EvidenceAccepts(l: Limits, e: Evidence)
    ensures Accepts(EvidenceC(l), e) <==>
            HeaderNamed(e.header) && Fits(e.header.detail, l.maxStringBytes) && Readable(e.payload, l)
  {
    hide Accepts, HeaderC, KindC, Word16, Iso;
    var kind := KindOf(e.payload);
    var forms := (k: U16) => PayloadC(l, k);
    HeaderAccepts(l, e.header);
    ScalarsTotal();
    TotalAccepts(Word16(), kind);
    if e.payload.Attach? || e.payload.Detach? || e.payload.Move? {
      PlacementAccepts(l, e.payload);
    } else if e.payload.SetLifecycle? || e.payload.ReincarnateObject? {
      LifecycleAccepts(l, e.payload);
    } else {
      CatalogueAccepts(l, e.payload);
    }
    RefineAccepts(KindC(l, kind), Dated, e.payload);
    DependAccepts(Word16(), forms, (kind, e.payload));
    PairAccepts(HeaderC(l), Depend(Word16(), forms), EvidenceParts(e));
    IsoAccepts(EvidenceRaw(l), MakeEvidence, EvidenceParts, e);
    assert EvidenceRaw(l) == Pair(HeaderC(l), Depend(Word16(), forms));
  }

  lemma DependAccepts<A, B>(a: Codec<A>, f: A -> Codec<B>, v: (A, B))
    ensures Accepts(Depend(a, f), v) <==> Accepts(a, v.0) && Accepts(f(v.0), v.1)
  {
  }

  /** Every record that passes the shape check can be written and read back. */
  lemma ShapedIsCarried(l: Limits, e: Evidence)
    requires ValidShape(e, l)
    ensures Accepts(EvidenceC(l), e)
  {
    EvidenceAccepts(l, e);
  }

  // ---- The codec is a bijection ----

  /** Decoding undoes encoding. */
  lemma EvidenceRoundTrip(l: Limits, e: Evidence)
    requires ValidShape(e, l)
    ensures Whole(EvidenceC(l), EvidenceC(l).write(e)) == Some(e)
  {
    hide Lawful, EvidenceC, ValidShape, Whole;
    ShapedIsCarried(l, e);
    EvidenceLawful(l);
    RoundTrip(EvidenceC(l), e);
  }

  /** Encoding undoes decoding: an accepted buffer is the one encoding of its record. */
  lemma EvidenceCanonical(l: Limits, b: Bytes)
    requires Whole(EvidenceC(l), b).Some?
    ensures EvidenceC(l).write(Whole(EvidenceC(l), b).value) == b
  {
    hide Lawful, EvidenceC, Whole;
    EvidenceLawful(l);
    Canonical(EvidenceC(l), b);
  }

  /** Of two accepted buffers neither is a proper prefix of the other. */
  lemma EvidenceDelimited(l: Limits, b: Bytes, more: Bytes)
    requires Whole(EvidenceC(l), b).Some? && Whole(EvidenceC(l), b + more).Some?
    ensures more == []
  {
    hide Lawful, EvidenceC, Whole;
    EvidenceLawful(l);
    SelfDelimiting(EvidenceC(l), b, more);
  }
}
