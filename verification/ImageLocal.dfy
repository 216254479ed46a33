// A reader never looks past what it consumes: whatever follows an accepted image, the same image is
// read.  So no proper prefix and no proper extension of a written image is accepted.

module Locality {
  import opened Words
  import opened State
  import opened Codec

  /** What follows an accepted value changes nothing but the rest. */
  ghost predicate Local<T(!new)>(c: Codec<T>)
  {
    forall b: Bytes, more: Bytes {:trigger c.read(b + more)} ::
      c.read(b).Some? ==> c.read(b + more) == Some((c.read(b).value.0, c.read(b).value.1 + more))
  }

  lemma ReadOn<T(!new)>(c: Codec<T>, b: Bytes, more: Bytes)
    requires Local(c) && c.read(b).Some?
    ensures c.read(b + more) == Some((c.read(b).value.0, c.read(b).value.1 + more))
  {
  }

  /** A codec whose parser accepts only what its printer writes is local. */
  lemma LawfulLocal<T(!new)>(c: Codec<T>)
    requires Lawful(c)
    ensures Local(c)
  {
    forall b: Bytes, more: Bytes | c.read(b).Some?
      ensures c.read(b + more) == Some((c.read(b).value.0, c.read(b).value.1 + more))
    {
      var v, rest := c.read(b).value.0, c.read(b).value.1;
      assert b + more == c.write(v) + (rest + more);
    }
  }

  lemma PairLocal<A(!new), B(!new)>(a: Codec<A>, b: Codec<B>)
    requires Local(a) && Local(b)
    ensures Local(Pair(a, b))
  {
    var c := Pair(a, b);
    forall s: Bytes, more: Bytes | c.read(s).Some?
      ensures c.read(s + more) == Some((c.read(s).value.0, c.read(s).value.1 + more))
    {
      ReadOn(a, s, more);
      ReadOn(b, a.read(s).value.1, more);
    }
  }

  lemma IsoLocal<A(!new), B(!new)>(c: Codec<A>, to: A -> B, from: B -> A)
    requires Local(c)
    ensures Local(Iso(c, to, from))
  {
    var d := Iso(c, to, from);
    forall s: Bytes, more: Bytes | d.read(s).Some?
      ensures d.read(s + more) == Some((d.read(s).value.0, d.read(s).value.1 + more))
    {
      ReadOn(c, s, more);
    }
  }

  /** No proper prefix and no proper extension of what was written is accepted. */
  lemma WrittenAlone<T(!new)>(c: Codec<T>, v: T, k: nat, more: Bytes)
    requires Prints(c) && Local(c) && Accepts(c, v) && more != []
    ensures k < |c.write(v)| ==> Whole(c, c.write(v)[..k]) == None
    ensures Whole(c, c.write(v) + more) == None
  {
    var b := c.write(v);
    assert c.read(b + more) == Some((v, more));
    assert b + [] == b && c.read(b + []) == Some((v, []));
    if k < |b| {
      assert b[..k] + b[k..] == b;
      if c.read(b[..k]).Some? { ReadOn(c, b[..k], b[k..]); }
    }
  }
}

module ImageLocal {
  import opened Words
  import opened Evidence
  import opened Ordering
  import opened State
  import opened Codec
  import opened Wire
  import opened Records
  import opened MapCodec
  import opened StateImage
  import opened ImageSize
  import opened Locality

  lemma FoldedLawful<V(!new)>(value: Codec<V>, l: Limits)
    requires Lawful(value)
    ensures Lawful(FoldedC(value, l))
  {
    hide Lawful, AttestationC, ListOf, Word32;
    AttestationLawful();
    ScalarsLawful();
    var ring := ListOf(AttestationC(), l.maxHistoryPerKey);
    ListLawful(AttestationC(), l.maxHistoryPerKey);
    PairLawful(ring, Word32());
    PairLawful(value, Pair(ring, Word32()));
    PairLawful(AttestationC(), Pair(value, Pair(ring, Word32())));
    IsoLawful(FoldedRaw(value, l), (p: FoldedTuple<V>) => MakeFolded(p), (f: Folded<V>) => FoldedParts(f));
  }

  lemma TableLocal<P(!new), K(!new), V(!new)>(row: Codec<(P, seq<(K, V)>)>, prank: P -> int, krank: K -> int, max: nat)
    requires Lawful(row)
    ensures Local(TableOf(row, prank, krank, max))
  {
    hide Lawful, Local;
    ListLawful(row, max);
    LawfulLocal(ListOf(row, max));
    IsoLocal(ListOf(row, max), (rows: Rows<P, K, V>) => Nest(rows), (t: map<P, map<K, V>>) => Unnest(t, prank, krank));
  }

  lemma MapLocal<K(!new), V(!new)>(entry: Codec<(K, V)>, rank: K -> int, max: nat)
    requires Lawful(entry)
    ensures Local(MapOf(entry, rank, max))
  {
    hide Lawful, Local;
    ListLawful(entry, max);
    LawfulLocal(ListOf(entry, max));
    IsoLocal(ListOf(entry, max), (es: seq<(K, V)>) => Collect(es), (m: map<K, V>) => Entries(m, rank));
  }

  lemma OwnedLocal<P(!new), V(!new)>(primary: Codec<P>, value: Codec<V>, prank: P -> int, l: Limits, max: nat)
    requires Lawful(primary) && Lawful(value)
    ensures Local(OwnedTable(primary, value, prank, l, max))
  {
    hide Lawful, Local, OwnerC, FoldedC, ListOf;
    ReferencesLawful();
    FoldedLawful(value, l);
    PairLawful(OwnerC(), FoldedC(value, l));
    ListLawful(OwnedEntry(value, l), l.maxSources);
    PairLawful(primary, ListOf(OwnedEntry(value, l), l.maxSources));
    TableLocal(OwnedRow(primary, value, l), prank, OwnerRank, max);
  }

  lemma SlotListLawful(p: PortRef, l: Limits)
    ensures Lawful(SlotList(p, l))
  {
    hide Lawful, OwnerC, Word32, FoldedC, ListOf, PortValueC, Times32;
    ReferencesLawful();
    ScalarsLawful();
    PlacementValuesLawful();
    FoldedLawful(PortValueC(), l);
    PairLawful(OwnerC(), Word32());
    IsoLawful(Pair(OwnerC(), Word32()), (t: (Owner, U32)) => MakeSlotKey(p, t), (k: SlotKey) => SlotKeyParts(k));
    PairLawful(SlotKeyC(p), FoldedC(PortValueC(), l));
    ListLawful(SlotEntry(p, l), Times32(l.maxSources, l.maxPortAttachments));
  }

  lemma PortTableLocal(l: Limits)
    ensures Local(PortTable(l))
  {
    hide Lawful, Local, PortRefC, SlotList, Times32;
    ReferencesLawful();
    var lists := (p: PortRef) => SlotList(p, l);
    forall p
      ensures Lawful(lists(p))
    {
      SlotListLawful(p, l);
    }
    DependLawful(PortRefC(), lists);
    TableLocal(PortRow(l), PortRank, SlotRank, Times32(l.maxEndpoints, l.maxPortsPerEndpoint));
  }

  lemma HeadLocal(l: Limits)
    ensures Local(HeadC(l))
  {
    hide Lawful, Local, Word32, Identity, Signed, OwnerC, SourceRecordC, SessionC, Refine, Times32;
    ScalarsLawful();
    SignedLawful();
    IdentityLawful();
    ReferencesLawful();
    SourceRecordLawful(l);
    SessionLawful();
    RefineLawful(Word32(), Current);
    PairLawful(Identity(), SourceRecordC(l));
    PairLawful(OwnerC(), SessionC());
    MapLocal(Pair(Identity(), SourceRecordC(l)), IdRank, l.maxSources);
    MapLocal(Pair(OwnerC(), SessionC()), OwnerRank, Times32(l.maxSources, 64));
    HeadPartsLocal(l);
  }

  lemma HeadPartsLocal(l: Limits)
    requires Local(SourcesC(l)) && Local(SessionsC(l)) && Lawful(Signed()) && Lawful(Identity())
    requires Lawful(Refine(Word32(), Current))
    ensures Local(HeadC(l))
  {
    hide Lawful, Local, Word32, Identity, Signed, SourcesC, SessionsC, Refine;
    LawfulLocal(Signed());
    LawfulLocal(Identity());
    LawfulLocal(Refine(Word32(), Current));
    PairLocal(SourcesC(l), SessionsC(l));
    PairLocal(Signed(), Pair(SourcesC(l), SessionsC(l)));
    PairLocal(Identity(), Pair(Signed(), Pair(SourcesC(l), SessionsC(l))));
    PairLocal(Refine(Word32(), Current), Pair(Identity(), Pair(Signed(), Pair(SourcesC(l), SessionsC(l)))));
  }

  lemma PlacementsLocal(l: Limits)
    ensures Local(PlacementsC(l))
  {
    hide Lawful, Local, Identity, SideRefC, ObjectC, EndpointC, SubjectC, OwnedTable, PortTable, Times32;
    IdentityLawful();
    ReferencesLawful();
    ObjectLawful(l);
    EndpointLawful(l);
    PlacementValuesLawful();
    OwnedLocal(Identity(), ObjectC(l), IdRank, l, l.maxObjects);
    OwnedLocal(Identity(), EndpointC(l), IdRank, l, l.maxEndpoints);
    OwnedLocal(SideRefC(), SubjectC(), SideRank, l, Times32(l.maxObjects, l.maxSidesPerObject));
    PortTableLocal(l);
    PairLocal(SubjectsC(l), PortTable(l));
    PairLocal(EndpointsC(l), Pair(SubjectsC(l), PortTable(l)));
    PairLocal(ObjectsC(l), Pair(EndpointsC(l), Pair(SubjectsC(l), PortTable(l))));
  }

  lemma LifetimesLocal(l: Limits)
    ensures Local(LifetimesC(l))
  {
    hide Lawful, Local, Identity, PortRefC, LifecycleC, ReincarnationC, NominalC, PortCapabilityC, OwnedTable, Times32;
    IdentityLawful();
    ReferencesLawful();
    LifetimeValuesLawful(l);
    NominalLawful(l);
    PortCapabilityLawful(l);
    OwnedLocal(Identity(), LifecycleC(l), IdRank, l, l.maxObjects);
    OwnedLocal(Identity(), ReincarnationC(l), IdRank, l, l.maxObjects);
    OwnedLocal(Identity(), NominalC(l), IdRank, l, l.maxObjects);
    OwnedLocal(PortRefC(), PortCapabilityC(l), PortRank, l, Times32(l.maxEndpoints, l.maxPortsPerEndpoint));
    PairLocal(NominalsC(l), PortCapabilitiesC(l));
    PairLocal(ReincarnationsC(l), Pair(NominalsC(l), PortCapabilitiesC(l)));
    PairLocal(LifecyclesC(l), Pair(ReincarnationsC(l), Pair(NominalsC(l), PortCapabilitiesC(l))));
  }

  /** The image reader is local. */
  lemma StateLocal(l: Limits)
    ensures Local(StateC(l))
  {
    hide Local, HeadC, PlacementsC, LifetimesC;
    HeadLocal(l);
    PlacementsLocal(l);
    LifetimesLocal(l);
    PairLocal(PlacementsC(l), LifetimesC(l));
    PairLocal(HeadC(l), Pair(PlacementsC(l), LifetimesC(l)));
    IsoLocal(StateRaw(l), (p: (Head, (Placements, Lifetimes))) => MakeState(p), (s: RegistryState) => StateParts(s));
  }

  /** No proper prefix and no proper extension of an image that can be read back is accepted. */
  lemma ImageDelimited(s: RegistryState, l: Limits, k: nat, more: Bytes)
    requires ContentsFit(s, l) && SizesFit(s, l) && |StateC(l).write(s)| <= ENCODER_CEILING && more != []
    ensures k < |StateC(l).write(s)| ==> Whole(StateC(l), StateC(l).write(s)[..k]) == None
    ensures Whole(StateC(l), StateC(l).write(s) + more) == None
  {
    hide ContentsFit, CountableState, SizesFit, StateC, Local, Prints, Whole;
    SmallImage(s, l);
    StateAccepts(s, l);
    StatePrints(l);
    StateLocal(l);
    WrittenAlone(StateC(l), s, k, more);
  }
}
