// The wire forms of descriptors and evidence records, built from the scalar codecs.

module Records {
  import opened Words
  import opened Evidence
  import opened State
  import opened Codec
  import opened Wire

  // ---- References ----

  function MakeAuthority(p: (AuthorityClass, U32)): Authority { Authority(p.0, p.1) }
  function AuthorityParts(a: Authority): (AuthorityClass, U32) { (a.authorityClass, a.rank) }
  function AuthorityC(): Codec<Authority> { Iso(Pair(ClassC(), Word32()), MakeAuthority, AuthorityParts) }

  function MakeSideRef(p: (Id, U32)): SideRef { SideRef(p.0, p.1) }
  function SideRefParts(r: SideRef): (Id, U32) { (r.objectId, r.side) }
  function SideRefC(): Codec<SideRef> { Iso(Pair(Identity(), Word32()), MakeSideRef, SideRefParts) }

  function MakePortRef(p: (Id, U32)): PortRef { PortRef(p.0, p.1) }
  function PortRefParts(r: PortRef): (Id, U32) { (r.endpoint, r.index) }
  function PortRefC(): Codec<PortRef> { Iso(Pair(Identity(), Word32()), MakePortRef, PortRefParts) }

  function MakeOwner(p: (Id, U64)): Owner { Owner(p.0, p.1) }
  function OwnerParts(o: Owner): (Id, U64) { (o.source, o.incarnation) }
  predicate OwnerNamed(o: Owner) { o.source != 0 && o.incarnation != 0 }
  function OwnerC(): Codec<Owner> { Refine(Iso(Pair(Identity(), Word64()), MakeOwner, OwnerParts), OwnerNamed) }

  lemma ReferencesLawful()
    ensures Lawful(AuthorityC()) && Lawful(SideRefC()) && Lawful(PortRefC()) && Lawful(OwnerC())
  {
    hide Lawful, Identity, Word32, Word64, ClassC;
    ScalarsLawful();
    IdentityLawful();
    MoreKindsLawful();
    PairLawful(ClassC(), Word32());
    PairLawful(Identity(), Word32());
    PairLawful(Identity(), Word64());
    IsoLawful(Pair(ClassC(), Word32()), MakeAuthority, AuthorityParts);
    IsoLawful(Pair(Identity(), Word32()), MakeSideRef, SideRefParts);
    IsoLawful(Pair(Identity(), Word32()), MakePortRef, PortRefParts);
    IsoLawful(Pair(Identity(), Word64()), MakeOwner, OwnerParts);
    RefineLawful(Iso(Pair(Identity(), Word64()), MakeOwner, OwnerParts), OwnerNamed);
  }

  lemma ReferencesTotal()
    ensures Total(AuthorityC()) && Total(SideRefC()) && Total(PortRefC())
    ensures forall o :: OwnerNamed(o) <==> Accepts(OwnerC(), o)
  {
    hide Total, Identity, Word32, Word64, ClassC;
    ScalarsTotal();
    IdentityLawful();
    MoreKindsLawful();
    PairTotal(ClassC(), Word32());
    PairTotal(Identity(), Word32());
    PairTotal(Identity(), Word64());
    IsoTotal(Pair(ClassC(), Word32()), MakeAuthority, AuthorityParts);
    IsoTotal(Pair(Identity(), Word32()), MakeSideRef, SideRefParts);
    IsoTotal(Pair(Identity(), Word32()), MakePortRef, PortRefParts);
    IsoTotal(Pair(Identity(), Word64()), MakeOwner, OwnerParts);
    forall o
      ensures OwnerNamed(o) <==> Accepts(OwnerC(), o)
    {
      TotalAccepts(Iso(Pair(Identity(), Word64()), MakeOwner, OwnerParts), o);
    }
  }

  lemma TotalAccepts<T(!new)>(c: Codec<T>, v: T)
    requires Total(c)
    ensures Accepts(c, v) && c.sound(v) && c.valid(v)
  {
  }

  // ---- Capabilities ----

  function MakeSide(p: (ConnectorClass, (MediaClass, U16))): SideDescriptor { SideDescriptor(p.0, p.1.0, p.1.1) }
  function SideParts(d: SideDescriptor): (ConnectorClass, (MediaClass, U16)) { (d.connector, (d.media, d.lanes)) }
  function SideC(): Codec<SideDescriptor> { Iso(Pair(ConnectorC(), Pair(MediaC(), Word16())), MakeSide, SideParts) }

  type NominalTuple = (MediaClass, (ConnectorClass, (U16, (U64, (U64, (U64, (bool, Text)))))))
  function MakeNominal(p: NominalTuple): NominalCapability
  {
    NominalCapability(p.0, p.1.0, p.1.1.0, p.1.1.1.0, p.1.1.1.1.0, p.1.1.1.1.1.0, p.1.1.1.1.1.1.0, p.1.1.1.1.1.1.1)
  }
  function NominalParts(c: NominalCapability): NominalTuple
  {
    (c.media, (c.connector, (c.lanes, (c.laneRate, (c.totalRate, (c.reach, (c.reachDeclared, c.code)))))))
  }
  function NominalRaw(l: Limits): Codec<NominalTuple>
  {
    Pair(MediaC(), Pair(ConnectorC(), Pair(Word16(), Pair(Word64(),
      Pair(Word64(), Pair(Word64(), Pair(Flag(), TextOf(l.maxCodeBytes))))))))
  }
  function NominalC(l: Limits): Codec<NominalCapability> { Iso(NominalRaw(l), MakeNominal, NominalParts) }

  type PortTuple = (U32, (ConnectorClass, (MediaClass, U16)))
  function MakePortCapability(p: PortTuple): PortCapability { PortCapability(p.0, p.1.0, p.1.1.0, p.1.1.1) }
  function PortCapabilityParts(c: PortCapability): PortTuple { (c.maxAttachments, (c.connector, (c.media, c.lanes))) }
  function PortCapabilityRaw(): Codec<PortTuple> { Pair(Word32(), Pair(ConnectorC(), Pair(MediaC(), Word16()))) }
  function PortCapabilityC(l: Limits): Codec<PortCapability>
  {
    Refine(Iso(PortCapabilityRaw(), MakePortCapability, PortCapabilityParts),
      (c: PortCapability) => ValidPortCapability(c, l))
  }

  lemma SideLawful()
    ensures Lawful(SideC()) && Total(SideC())
  {
    hide Lawful, Total, Word16, ConnectorC, MediaC;
    ScalarsLawful();
    ScalarsTotal();
    KindsLawful();
    PairLawful(MediaC(), Word16());
    PairLawful(ConnectorC(), Pair(MediaC(), Word16()));
    IsoLawful(Pair(ConnectorC(), Pair(MediaC(), Word16())), MakeSide, SideParts);
    PairTotal(MediaC(), Word16());
    PairTotal(ConnectorC(), Pair(MediaC(), Word16()));
    IsoTotal(Pair(ConnectorC(), Pair(MediaC(), Word16())), MakeSide, SideParts);
  }

  lemma NominalLawful(l: Limits)
    ensures Lawful(NominalC(l))
  {
    hide Lawful, Word16, Word64, ConnectorC, MediaC, Flag, TextOf;
    ScalarsLawful();
    FlagLawful();
    KindsLawful();
    var text := TextOf(l.maxCodeBytes);
    TextLawful(l.maxCodeBytes);
    PairLawful(Flag(), text);
    PairLawful(Word64(), Pair(Flag(), text));
    PairLawful(Word64(), Pair(Word64(), Pair(Flag(), text)));
    PairLawful(Word64(), Pair(Word64(), Pair(Word64(), Pair(Flag(), text))));
    PairLawful(Word16(), Pair(Word64(), Pair(Word64(), Pair(Word64(), Pair(Flag(), text)))));
    PairLawful(ConnectorC(), Pair(Word16(), Pair(Word64(), Pair(Word64(), Pair(Word64(), Pair(Flag(), text))))));
    PairLawful(MediaC(), Pair(ConnectorC(), Pair(Word16(),
      Pair(Word64(), Pair(Word64(), Pair(Word64(), Pair(Flag(), text)))))));
    IsoLawful(NominalRaw(l), MakeNominal, NominalParts);
  }

  lemma PortCapabilityLawful(l: Limits)
    ensures Lawful(PortCapabilityC(l))
  {
    hide Lawful, Word16, Word32, ConnectorC, MediaC;
    ScalarsLawful();
    KindsLawful();
    PairLawful(MediaC(), Word16());
    PairLawful(ConnectorC(), Pair(MediaC(), Word16()));
    PairLawful(Word32(), Pair(ConnectorC(), Pair(MediaC(), Word16())));
    IsoLawful(PortCapabilityRaw(), MakePortCapability, PortCapabilityParts);
    RefineLawful(Iso(PortCapabilityRaw(), MakePortCapability, PortCapabilityParts),
      (c: PortCapability) => ValidPortCapability(c, l));
  }

  lemma TextAccepts(max: U32, t: Text)
    ensures Accepts(TextOf(max), t) <==> Fits(t, max)
  {
  }

  lemma NominalAccepts(l: Limits, c: NominalCapability)
    ensures Accepts(NominalC(l), c) <==> Fits(c.code, l.maxCodeBytes)
  {
    hide Accepts, Total, Word16, Word64, ConnectorC, MediaC, Flag, TextOf;
    ScalarsTotal();
    FlagLawful();
    KindsLawful();
    var text := TextOf(l.maxCodeBytes);
    TextAccepts(l.maxCodeBytes, c.code);
    var p := NominalParts(c);
    TotalAccepts(MediaC(), p.0);
    TotalAccepts(ConnectorC(), p.1.0);
    TotalAccepts(Word16(), p.1.1.0);
    TotalAccepts(Word64(), p.1.1.1.0);
    TotalAccepts(Word64(), p.1.1.1.1.0);
    TotalAccepts(Word64(), p.1.1.1.1.1.0);
    TotalAccepts(Flag(), p.1.1.1.1.1.1.0);
    PairAccepts(Flag(), text, p.1.1.1.1.1.1);
    PairAccepts(Word64(), Pair(Flag(), text), p.1.1.1.1.1);
    PairAccepts(Word64(), Pair(Word64(), Pair(Flag(), text)), p.1.1.1.1);
    PairAccepts(Word64(), Pair(Word64(), Pair(Word64(), Pair(Flag(), text))), p.1.1.1);
    PairAccepts(Word16(), Pair(Word64(), Pair(Word64(), Pair(Word64(), Pair(Flag(), text)))), p.1.1);
    PairAccepts(ConnectorC(), Pair(Word16(), Pair(Word64(), Pair(Word64(), Pair(Word64(), Pair(Flag(), text))))), p.1);
    PairAccepts(MediaC(), Pair(ConnectorC(), Pair(Word16(),
      Pair(Word64(), Pair(Word64(), Pair(Word64(), Pair(Flag(), text)))))), p);
    IsoAccepts(NominalRaw(l), MakeNominal, NominalParts, c);
  }

  lemma IsoAccepts<A, B>(c: Codec<A>, to: A -> B, from: B -> A, v: B)
    ensures Accepts(Iso(c, to, from), v) <==> Accepts(c, from(v)) && to(from(v)) == v
    ensures Iso(c, to, from).sound(v) <==> c.sound(from(v)) && to(from(v)) == v
    ensures Iso(c, to, from).valid(v) <==> c.valid(from(v))
  {
  }

  lemma RefineAccepts<A>(c: Codec<A>, p: A -> bool, v: A)
    ensures Accepts(Refine(c, p), v) <==> Accepts(c, v) && p(v)
  {
  }

  lemma ListAccepts<A(!new)>(c: Codec<A>, max: U32, vs: seq<A>)
    requires Total(c)
    ensures Accepts(ListOf(c, max), vs) <==> |vs| <= max
  {
    forall i | 0 <= i < |vs|
      ensures c.sound(vs[i]) && c.valid(vs[i])
    {
      TotalAccepts(c, vs[i]);
    }
  }

  lemma PortCapabilityAccepts(l: Limits, c: PortCapability)
    ensures Accepts(PortCapabilityC(l), c) <==> ValidPortCapability(c, l)
  {
    hide Accepts, Total, Word16, Word32, ConnectorC, MediaC;
    ScalarsTotal();
    KindsLawful();
    PairTotal(MediaC(), Word16());
    PairTotal(ConnectorC(), Pair(MediaC(), Word16()));
    PairTotal(Word32(), Pair(ConnectorC(), Pair(MediaC(), Word16())));
    TotalAccepts(PortCapabilityRaw(), PortCapabilityParts(c));
    IsoAccepts(PortCapabilityRaw(), MakePortCapability, PortCapabilityParts, c);
    RefineAccepts(Iso(PortCapabilityRaw(), MakePortCapability, PortCapabilityParts),
      (d: PortCapability) => ValidPortCapability(d, l), c);
  }

  // ---- Descriptors ----

  type SourceTuple = (Id, (Text, (Authority, Text)))
  function MakeSource(p: SourceTuple): SourceDescriptor { SourceDescriptor(p.0, p.1.0, p.1.1.0, p.1.1.1) }
  function SourceParts(d: SourceDescriptor): SourceTuple { (d.id, (d.name, (d.authority, d.domain))) }
  function SourceRaw(l: Limits): Codec<SourceTuple>
  {
    Pair(Identity(), Pair(TextOf(l.maxStringBytes), Pair(AuthorityC(), TextOf(l.maxStringBytes))))
  }
  predicate SourceNamed(d: SourceDescriptor) { d.id != 0 }
  function SourceC(l: Limits): Codec<SourceDescriptor>
  {
    Refine(Iso(SourceRaw(l), MakeSource, SourceParts), SourceNamed)
  }

  lemma SourceLawful(l: Limits)
    ensures Lawful(SourceC(l))
  {
    hide Lawful, Identity, AuthorityC, TextOf;
    IdentityLawful();
    ReferencesLawful();
    var text := TextOf(l.maxStringBytes);
    TextLawful(l.maxStringBytes);
    PairLawful(AuthorityC(), text);
    PairLawful(text, Pair(AuthorityC(), text));
    PairLawful(Identity(), Pair(text, Pair(AuthorityC(), text)));
    IsoLawful(SourceRaw(l), MakeSource, SourceParts);
    RefineLawful(Iso(SourceRaw(l), MakeSource, SourceParts), SourceNamed);
  }

  lemma SourceAccepts(l: Limits, d: SourceDescriptor)
    ensures Accepts(SourceC(l), d) <==> d.id != 0 && Fits(d.name, l.maxStringBytes) && Fits(d.domain, l.maxStringBytes)
  {
    hide Accepts, Total, Identity, AuthorityC, TextOf;
    IdentityLawful();
    ReferencesTotal();
    var text := TextOf(l.maxStringBytes);
    var p := SourceParts(d);
    TextAccepts(l.maxStringBytes, d.name);
    TextAccepts(l.maxStringBytes, d.domain);
    TotalAccepts(Identity(), p.0);
    TotalAccepts(AuthorityC(), p.1.1.0);
    PairAccepts(AuthorityC(), text, p.1.1);
    PairAccepts(text, Pair(AuthorityC(), text), p.1);
    PairAccepts(Identity(), Pair(text, Pair(AuthorityC(), text)), p);
    IsoAccepts(SourceRaw(l), MakeSource, SourceParts, d);
    RefineAccepts(Iso(SourceRaw(l), MakeSource, SourceParts), SourceNamed, d);
  }

  type ObjectTuple = (Id, (ObjectKind, (Text, (Text, (Text, (seq<SideDescriptor>, NominalCapability))))))
  function MakeObject(p: ObjectTuple): ObjectDescriptor
  {
    ObjectDescriptor(p.0, p.1.0, p.1.1.0, p.1.1.1.0, p.1.1.1.1.0, p.1.1.1.1.1.0, p.1.1.1.1.1.1)
  }
  function ObjectParts(d: ObjectDescriptor): ObjectTuple
  {
    (d.id, (d.kind, (d.physicalLabel, (d.serial, (d.location, (d.sides, d.capability))))))
  }
  function ObjectRaw(l: Limits): Codec<ObjectTuple>
  {
    var text := TextOf(l.maxStringBytes);
    Pair(Identity(), Pair(ObjectKindC(), Pair(text, Pair(text,
      Pair(text, Pair(ListOf(SideC(), l.maxSidesPerObject), NominalC(l)))))))
  }
  predicate ObjectNamed(d: ObjectDescriptor) { d.id != 0 && d.sides != [] }
  function ObjectC(l: Limits): Codec<ObjectDescriptor>
  {
    Refine(Iso(ObjectRaw(l), MakeObject, ObjectParts), ObjectNamed)
  }

  lemma ObjectLawful(l: Limits)
    ensures Lawful(ObjectC(l))
  {
    hide Lawful, Identity, ObjectKindC, TextOf, ListOf, SideC, NominalC;
    IdentityLawful();
    MoreKindsLawful();
    SideLawful();
    NominalLawful(l);
    var text, sides := TextOf(l.maxStringBytes), ListOf(SideC(), l.maxSidesPerObject);
    TextLawful(l.maxStringBytes);
    ListLawful(SideC(), l.maxSidesPerObject);
    PairLawful(sides, NominalC(l));
    PairLawful(text, Pair(sides, NominalC(l)));
    PairLawful(text, Pair(text, Pair(sides, NominalC(l))));
    PairLawful(text, Pair(text, Pair(text, Pair(sides, NominalC(l)))));
    PairLawful(ObjectKindC(), Pair(text, Pair(text, Pair(text, Pair(sides, NominalC(l))))));
    PairLawful(Identity(), Pair(ObjectKindC(), Pair(text, Pair(text, Pair(text, Pair(sides, NominalC(l)))))));
    IsoLawful(ObjectRaw(l), MakeObject, ObjectParts);
    RefineLawful(Iso(ObjectRaw(l), MakeObject, ObjectParts), ObjectNamed);
  }

  lemma ObjectAccepts(l: Limits, d: ObjectDescriptor)
    ensures Accepts(ObjectC(l), d) <==> ValidObjectDescriptor(d, l)
  {
    hide Accepts, Total, Identity, ObjectKindC, TextOf, ListOf, SideC, NominalC;
    IdentityLawful();
    MoreKindsLawful();
    SideLawful();
    var text, sides := TextOf(l.maxStringBytes), ListOf(SideC(), l.maxSidesPerObject);
    var p := ObjectParts(d);
    TotalAccepts(Identity(), p.0);
    TotalAccepts(ObjectKindC(), p.1.0);
    TextAccepts(l.maxStringBytes, d.physicalLabel);
    TextAccepts(l.maxStringBytes, d.serial);
    TextAccepts(l.maxStringBytes, d.location);
    ListAccepts(SideC(), l.maxSidesPerObject, d.sides);
    NominalAccepts(l, d.capability);
    PairAccepts(sides, NominalC(l), p.1.1.1.1.1);
    PairAccepts(text, Pair(sides, NominalC(l)), p.1.1.1.1);
    PairAccepts(text, Pair(text, Pair(sides, NominalC(l))), p.1.1.1);
    PairAccepts(text, Pair(text, Pair(text, Pair(sides, NominalC(l)))), p.1.1);
    PairAccepts(ObjectKindC(), Pair(text, Pair(text, Pair(text, Pair(sides, NominalC(l))))), p.1);
    PairAccepts(Identity(), Pair(ObjectKindC(), Pair(text, Pair(text, Pair(text, Pair(sides, NominalC(l)))))), p);
    IsoAccepts(ObjectRaw(l), MakeObject, ObjectParts, d);
    RefineAccepts(Iso(ObjectRaw(l), MakeObject, ObjectParts), ObjectNamed, d);
  }

  type EndpointTuple = (Id, (EndpointKind, (Text, (Text, (U32, PortCapability)))))
  function MakeEndpoint(p: EndpointTuple): EndpointDescriptor
  {
    EndpointDescriptor(p.0, p.1.0, p.1.1.0, p.1.1.1.0, p.1.1.1.1.0, p.1.1.1.1.1)
  }
  function EndpointParts(d: EndpointDescriptor): EndpointTuple
  {
    (d.id, (d.kind, (d.name, (d.location, (d.portCount, d.defaultCapability)))))
  }
  function EndpointRaw(l: Limits): Codec<EndpointTuple>
  {
    var text := TextOf(l.maxStringBytes);
    Pair(Identity(), Pair(EndpointKindC(), Pair(text, Pair(text, Pair(Word32(), PortCapabilityC(l))))))
  }
  predicate EndpointNamed(d: EndpointDescriptor, l: Limits) { d.id != 0 && 1 <= d.portCount <= l.maxPortsPerEndpoint }
  function EndpointC(l: Limits): Codec<EndpointDescriptor>
  {
    Refine(Iso(EndpointRaw(l), MakeEndpoint, EndpointParts), (d: EndpointDescriptor) => EndpointNamed(d, l))
  }

  lemma EndpointLawful(l: Limits)
    ensures Lawful(EndpointC(l))
  {
    hide Lawful, Identity, EndpointKindC, TextOf, Word32, PortCapabilityC;
    IdentityLawful();
    MoreKindsLawful();
    ScalarsLawful();
    PortCapabilityLawful(l);
    var text := TextOf(l.maxStringBytes);
    TextLawful(l.maxStringBytes);
    PairLawful(Word32(), PortCapabilityC(l));
    PairLawful(text, Pair(Word32(), PortCapabilityC(l)));
    PairLawful(text, Pair(text, Pair(Word32(), PortCapabilityC(l))));
    PairLawful(EndpointKindC(), Pair(text, Pair(text, Pair(Word32(), PortCapabilityC(l)))));
    PairLawful(Identity(), Pair(EndpointKindC(), Pair(text, Pair(text, Pair(Word32(), PortCapabilityC(l))))));
    IsoLawful(EndpointRaw(l), MakeEndpoint, EndpointParts);
    RefineLawful(Iso(EndpointRaw(l), MakeEndpoint, EndpointParts), (d: EndpointDescriptor) => EndpointNamed(d, l));
  }

  lemma EndpointAccepts(l: Limits, d: EndpointDescriptor)
    ensures Accepts(EndpointC(l), d) <==> ValidEndpointDescriptor(d, l)
  {
    hide Accepts, Total, Identity, EndpointKindC, TextOf, Word32, PortCapabilityC;
    IdentityLawful();
    MoreKindsLawful();
    ScalarsTotal();
    var text := TextOf(l.maxStringBytes);
    var p := EndpointParts(d);
    TotalAccepts(Identity(), p.0);
    TotalAccepts(EndpointKindC(), p.1.0);
    TextAccepts(l.maxStringBytes, d.name);
    TextAccepts(l.maxStringBytes, d.location);
    TotalAccepts(Word32(), d.portCount);
    PortCapabilityAccepts(l, d.defaultCapability);
    PairAccepts(Word32(), PortCapabilityC(l), p.1.1.1.1);
    PairAccepts(text, Pair(Word32(), PortCapabilityC(l)), p.1.1.1);
    PairAccepts(text, Pair(text, Pair(Word32(), PortCapabilityC(l))), p.1.1);
    PairAccepts(EndpointKindC(), Pair(text, Pair(text, Pair(Word32(), PortCapabilityC(l)))), p.1);
    PairAccepts(Identity(), Pair(EndpointKindC(), Pair(text, Pair(text, Pair(Word32(), PortCapabilityC(l))))), p);
    IsoAccepts(EndpointRaw(l), MakeEndpoint, EndpointParts, d);
    RefineAccepts(Iso(EndpointRaw(l), MakeEndpoint, EndpointParts), (e: EndpointDescriptor) => EndpointNamed(e, l), d);
  }
}
