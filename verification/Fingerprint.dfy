// What the provenance digest tells apart.  The image determines the winning claims, but it is only
// digested while it fits the encoder: beyond that nothing is left of it.

module Fingerprint {
  import opened Words
  import opened LittleEndian
  import opened Evidence
  import opened Ordering
  import opened State
  import opened Fold
  import opened Ingest
  import opened Keys
  import opened Effects
  import opened Sessions
  import opened Invariants
  import opened Bounds
  import opened Reachable
  import opened Codec
  import opened Wire
  import opened Records
  import opened MapCodec
  import opened StateImage
  import opened ImageSize
  import opened Images
  import opened Recovery
  import opened Provenance
  import opened Falls
  import opened Retirement

  // ---- The codecs of the image read back what they write ----

  lemma StampPrints()
    ensures Prints(StampC())
    ensures forall a: Stamp :: OwnerNamed(a.owner) ==> Accepts(StampC(), a)
  {
    hide Prints, Lawful, Total, Word64, Identity, Signed, ProvenanceC, AuthorityC, OwnerC;
    StampRestLawful();
    OwnerPrints();
    hide StampRest;
    PairPrints(OwnerC(), StampRest());
    IsoPrints(Pair(OwnerC(), StampRest()), MakeStamp, StampParts);
    ReferencesTotal();
    forall a: Stamp | OwnerNamed(a.owner)
      ensures Accepts(StampC(), a)
    {
      var p := StampParts(a);
      assert Accepts(OwnerC(), a.owner);
      TotalAccepts(StampRest(), p.1);
      PairAccepts(OwnerC(), StampRest(), p);
      IsoAccepts(Pair(OwnerC(), StampRest()), MakeStamp, StampParts, a);
    }
  }

  lemma StampRestLawful()
    ensures Prints(StampRest()) && Total(StampRest())
  {
    hide Lawful, Total, Word64, Identity, Signed, ProvenanceC, AuthorityC;
    ScalarsLawful();
    ScalarsTotal();
    IdentityLawful();
    SignedLawful();
    KindsLawful();
    ReferencesLawful();
    ReferencesTotal();
    PairLawful(ProvenanceC(), AuthorityC());
    PairTotal(ProvenanceC(), AuthorityC());
    PairLawful(Signed(), Pair(ProvenanceC(), AuthorityC()));
    PairTotal(Signed(), Pair(ProvenanceC(), AuthorityC()));
    PairLawful(Identity(), Pair(Signed(), Pair(ProvenanceC(), AuthorityC())));
    PairTotal(Identity(), Pair(Signed(), Pair(ProvenanceC(), AuthorityC())));
    PairLawful(Word64(), Pair(Identity(), Pair(Signed(), Pair(ProvenanceC(), AuthorityC()))));
    PairTotal(Word64(), Pair(Identity(), Pair(Signed(), Pair(ProvenanceC(), AuthorityC()))));
    assert Lawful(StampRest()) ==> Prints(StampRest()) by { LawfulPrints(StampRest()); }
  }

  lemma LawfulPrints<T(!new)>(c: Codec<T>)
    ensures Lawful(c) ==> Prints(c)
  {
  }

  lemma GroupsPrint<P(!new), V(!new)>(primary: Codec<P>, value: Codec<V>, prank: P -> int)
    requires Prints(primary) && Prints(value)
    ensures Prints(GroupsC(primary, value, prank))
  {
    hide Prints, StampC, ListOf, Accepts;
    StampPrints();
    PairPrints(StampC(), value);
    IsoPrints(Pair(StampC(), value), (p: (Stamp, V)) => MakeEntry(p), (e: (Owner, Winner<V>)) => EntryParts(e));
    ListPrints(WinnerEntry(value), ANY_COUNT);
    PairPrints(primary, ListOf(WinnerEntry(value), ANY_COUNT));
    TablePrints(WinnerRow(primary, value), prank, OwnerRank, ANY_COUNT);
  }

  lemma SlotWinnersPrint(p: PortRef)
    ensures Prints(SlotWinners(p))
  {
    hide Prints, StampC, ListOf, Accepts, OwnerC, Word32, PortValueC;
    StampPrints();
    OwnerPrints();
    ScalarsLawful();
    PlacementValuesLawful();
    PairPrints(OwnerC(), Word32());
    IsoPrints(Pair(OwnerC(), Word32()), (t: (Owner, U32)) => MakeSlotKey(p, t), (k: SlotKey) => SlotKeyParts(k));
    hide SlotKeyC;
    PairPrints(SlotKeyC(p), PortValueC());
    PairPrints(StampC(), Pair(SlotKeyC(p), PortValueC()));
    IsoPrints(Pair(StampC(), Pair(SlotKeyC(p), PortValueC())), MakeSlotEntry, SlotEntryParts);
    ListPrints(SlotWinner(p), ANY_COUNT);
  }

  lemma SlotsPrint()
    ensures Prints(SlotsC())
  {
    hide Prints, PortRefC, SlotWinners;
    OwnerPrints();
    var lists := (p: PortRef) => SlotWinners(p);
    forall p
      ensures Prints(lists(p))
    {
      SlotWinnersPrint(p);
    }
    DependPrints(PortRefC(), lists);
    TablePrints(SlotRow(), PortRank, SlotRank, ANY_COUNT);
  }

  // ---- Which winners are carried ----

  /** Every record is filed under the owner that made it. */
  ghost predicate OwnFiled<P(!new), V(!new)>(t: Table<P, Owner, V>)
  {
    forall p, o :: p in t && o in t[p] ==> t[p][o].meta.owner == o
  }

  /** Every count fits 32 bits. */
  predicate Counted<P, K, V>(t: Table<P, K, V>)
  {
    |t| < TWO_32 && forall p :: p in t ==> |t[p]| < TWO_32
  }

  lemma EntryAccepted<V(!new)>(value: Codec<V>, o: Owner, w: Winner<V>)
    requires OwnerNamed(o) && w.stamp.owner == o && Accepts(value, w.value)
    ensures Accepts(WinnerEntry(value), (o, w))
  {
    hide StampC, OwnerNamed;
    StampPrints();
    var e := (o, w);
    assert Accepts(StampC(), w.stamp);
    PairAccepts(StampC(), value, EntryParts(e));
    IsoAccepts(Pair(StampC(), value), (p: (Stamp, V)) => MakeEntry(p), (f: (Owner, Winner<V>)) => EntryParts(f), e);
  }

  lemma RowAccepted<P(!new), V(!new)>(primary: Codec<P>, value: Codec<V>, l: Limits, t: Table<P, Owner, V>, p: P)
    requires Total(primary) && RecordsFit(t, value, l) && OwnFiled(t) && p in t && |t[p]| < TWO_32
    ensures WinnerRow(primary, value).sound((p, Entries(WinningGroup(t[p]), OwnerRank)))
    ensures WinnerRow(primary, value).valid((p, Entries(WinningGroup(t[p]), OwnerRank)))
  {
    hide ListOf, Total, Entries, Pair, RecordFits, WinnerEntry, OwnerNamed;
    var group := WinningGroup(t[p]);
    var entries := Entries(group, OwnerRank);
    SameDomain(t[p], group);
    EntriesMembers(group, OwnerRank);
    TotalAccepts(primary, p);
    forall e | e in entries
      ensures WinnerEntry(value).sound(e) && WinnerEntry(value).valid(e)
    {
      assert OwnerNamed(e.0) && Accepts(value, t[p][e.0].value);
      EntryAccepted(value, e.0, e.1);
    }
    ListMembers(WinnerEntry(value), ANY_COUNT, entries);
    PairAccepts(primary, ListOf(WinnerEntry(value), ANY_COUNT), (p, entries));
  }

  lemma GroupsAccepted<P(!new), V(!new)>(primary: Codec<P>, value: Codec<V>, prank: P -> int, l: Limits,
                                         t: Table<P, Owner, V>)
    requires Total(primary) && RecordsFit(t, value, l) && OwnFiled(t) && Counted(t)
    ensures Accepts(GroupsC(primary, value, prank), Winning(t))
  {
    hide WinnerRow, Total, Entries, TableOf, RecordsFit, OwnFiled, WinningGroup;
    SameDomain(t, Winning(t));
    TableAccepts(WinnerRow(primary, value), prank, OwnerRank, ANY_COUNT, Winning(t));
    forall p | p in Winning(t)
      ensures WinnerRow(primary, value).sound((p, Entries(Winning(t)[p], OwnerRank)))
              && WinnerRow(primary, value).valid((p, Entries(Winning(t)[p], OwnerRank)))
    {
      RowAccepted(primary, value, l, t, p);
    }
  }

  lemma SlotAccepted(p: PortRef, key: SlotKey, w: Winner<PortValue>)
    requires key.port == p && OwnerNamed(key.owner) && OwnerNamed(w.stamp.owner)
    ensures Accepts(SlotWinner(p), (key, w))
  {
    hide StampC, OwnerNamed, SlotKeyC, PortValueC;
    StampPrints();
    SlotKeyAccepts(p, key);
    PlacementValuesAccept(SubjectValue(1, false, PortRef(0, 0), 0, false, PortRef(0, 0)), w.value);
    var e := (key, w);
    assert Accepts(StampC(), w.stamp);
    PairAccepts(SlotKeyC(p), PortValueC(), SlotEntryParts(e).1);
    PairAccepts(StampC(), Pair(SlotKeyC(p), PortValueC()), SlotEntryParts(e));
    IsoAccepts(Pair(StampC(), Pair(SlotKeyC(p), PortValueC())), MakeSlotEntry, SlotEntryParts, e);
  }

  lemma SlotRowAccepted(l: Limits, t: Table<PortRef, SlotKey, PortValue>, p: PortRef)
    requires SlotsFit(t, l) && p in t && |t[p]| < TWO_32
    ensures SlotRow().sound((p, Entries(WinningGroup(t[p]), SlotRank)))
    ensures SlotRow().valid((p, Entries(WinningGroup(t[p]), SlotRank)))
  {
    hide ListOf, Entries, SlotWinner, OwnerNamed, PortRefC;
    var group := WinningGroup(t[p]);
    var entries := Entries(group, SlotRank);
    SameDomain(t[p], group);
    EntriesMembers(group, SlotRank);
    ReferencesTotal();
    TotalAccepts(PortRefC(), p);
    forall e | e in entries
      ensures SlotWinner(p).sound(e) && SlotWinner(p).valid(e)
    {
      assert SlotFits(p, e.0, t[p][e.0], l);
      SlotAccepted(p, e.0, e.1);
    }
    ListMembers(SlotWinner(p), ANY_COUNT, entries);
  }

  lemma SlotsAccepted(l: Limits, t: Table<PortRef, SlotKey, PortValue>)
    requires SlotsFit(t, l) && Counted(t)
    ensures Accepts(SlotsC(), Winning(t))
  {
    hide SlotRow, Entries, TableOf, SlotsFit, WinningGroup;
    SameDomain(t, Winning(t));
    TableAccepts(SlotRow(), PortRank, SlotRank, ANY_COUNT, Winning(t));
    forall p | p in Winning(t)
      ensures SlotRow().sound((p, Entries(Winning(t)[p], SlotRank)))
              && SlotRow().valid((p, Entries(Winning(t)[p], SlotRank)))
    {
      SlotRowAccepted(l, t, p);
    }
  }

  // ---- The image determines the winning claims ----

  /** What one codec wrote in front of two tails can be told apart from what follows. */
  lemma Peel<T(!new)>(c: Codec<T>, v: T, w: T, x: Bytes, y: Bytes)
    requires Prints(c) && Accepts(c, v) && Accepts(c, w) && c.write(v) + x == c.write(w) + y
    ensures v == w && x == y
  {
    assert c.read(c.write(v) + x) == Some((v, x));
    assert c.read(c.write(w) + y) == Some((w, y));
  }

  ghost predicate PlacesCarried(w: Told, l: Limits)
  {
    && Accepts(GroupsC(Identity(), ObjectC(l), IdRank), w.objects)
    && Accepts(GroupsC(Identity(), EndpointC(l), IdRank), w.endpoints)
    && Accepts(GroupsC(SideRefC(), SubjectC(), SideRank), w.subjects) && Accepts(SlotsC(), w.ports)
  }

  ghost predicate LivesCarried(w: Told, l: Limits)
  {
    && Accepts(GroupsC(Identity(), LifecycleC(l), IdRank), w.lifecycles)
    && Accepts(GroupsC(Identity(), ReincarnationC(l), IdRank), w.reincarnations)
    && Accepts(GroupsC(Identity(), NominalC(l), IdRank), w.nominals)
    && Accepts(GroupsC(PortRefC(), PortCapabilityC(l), PortRank), w.capabilities)
  }

  lemma PlacesPeel(v: Told, w: Told, l: Limits, x: Bytes, y: Bytes)
    requires PlacesCarried(v, l) && PlacesCarried(w, l) && PlacesImage(v, l, x) == PlacesImage(w, l, y)
    ensures v.objects == w.objects && v.endpoints == w.endpoints && v.subjects == w.subjects && v.ports == w.ports
    ensures x == y
  {
    hide Prints, GroupsC, SlotsC, Accepts, Identity, SideRefC, ObjectC, EndpointC, SubjectC;
    OwnerPrints();
    assert Prints(ObjectC(l)) && Prints(EndpointC(l)) && Prints(SubjectC()) by { PlaceValuesPrint(l); }
    GroupsPrint(Identity(), ObjectC(l), IdRank);
    GroupsPrint(Identity(), EndpointC(l), IdRank);
    GroupsPrint(SideRefC(), SubjectC(), SideRank);
    SlotsPrint();
    var a, b := SlotsC().write(v.ports) + x, SlotsC().write(w.ports) + y;
    var c := GroupsC(SideRefC(), SubjectC(), SideRank);
    var d := GroupsC(Identity(), EndpointC(l), IdRank);
    Peel(GroupsC(Identity(), ObjectC(l), IdRank), v.objects, w.objects,
      d.write(v.endpoints) + (c.write(v.subjects) + a), d.write(w.endpoints) + (c.write(w.subjects) + b));
    Peel(d, v.endpoints, w.endpoints, c.write(v.subjects) + a, c.write(w.subjects) + b);
    Peel(c, v.subjects, w.subjects, a, b);
    Peel(SlotsC(), v.ports, w.ports, x, y);
  }

  lemma PlaceValuesPrint(l: Limits)
    ensures Prints(ObjectC(l)) && Prints(EndpointC(l)) && Prints(SubjectC())
  {
    hide ObjectC, EndpointC, SubjectC;
    ObjectLawful(l);
    EndpointLawful(l);
    PlacementValuesLawful();
  }

  lemma LifeValuesPrint(l: Limits)
    ensures Prints(LifecycleC(l)) && Prints(ReincarnationC(l)) && Prints(NominalC(l)) && Prints(PortCapabilityC(l))
  {
    hide LifecycleC, ReincarnationC, NominalC, PortCapabilityC;
    LifetimeValuesLawful(l);
    NominalLawful(l);
    PortCapabilityLawful(l);
  }

  lemma LivesPeel(v: Told, w: Told, l: Limits)
    requires LivesCarried(v, l) && LivesCarried(w, l) && LivesImage(v, l) == LivesImage(w, l)
    ensures v.lifecycles == w.lifecycles && v.reincarnations == w.reincarnations
    ensures v.nominals == w.nominals && v.capabilities == w.capabilities
  {
    hide Prints, GroupsC, Accepts, Identity, PortRefC, LifecycleC, ReincarnationC, NominalC, PortCapabilityC;
    OwnerPrints();
    LifeValuesPrint(l);
    GroupsPrint(Identity(), LifecycleC(l), IdRank);
    GroupsPrint(Identity(), ReincarnationC(l), IdRank);
    GroupsPrint(Identity(), NominalC(l), IdRank);
    GroupsPrint(PortRefC(), PortCapabilityC(l), PortRank);
    var c := GroupsC(PortRefC(), PortCapabilityC(l), PortRank);
    var d := GroupsC(Identity(), NominalC(l), IdRank);
    var e := GroupsC(Identity(), ReincarnationC(l), IdRank);
    var a, b := c.write(v.capabilities) + [], c.write(w.capabilities) + [];
    Peel(GroupsC(Identity(), LifecycleC(l), IdRank), v.lifecycles, w.lifecycles,
      e.write(v.reincarnations) + (d.write(v.nominals) + a), e.write(w.reincarnations) + (d.write(w.nominals) + b));
    Peel(e, v.reincarnations, w.reincarnations, d.write(v.nominals) + a, d.write(w.nominals) + b);
    Peel(d, v.nominals, w.nominals, a, b);
    Peel(c, v.capabilities, w.capabilities, [], []);
  }

  /** Every record can be written and read back. */
  ghost predicate Carried(s: RegistryState, l: Limits)
  {
    PlacesCarried(ToldBy(s), l) && LivesCarried(ToldBy(s), l)
  }

  /** The image determines the winning claims. */
  lemma ImageInjective(s: RegistryState, t: RegistryState, l: Limits)
    requires Carried(s, l) && Carried(t, l) && ProvenanceImage(s, l) == ProvenanceImage(t, l)
    ensures ToldBy(s) == ToldBy(t)
  {
    hide ToldBy, PlacesImage, LivesImage, PlacesCarried, LivesCarried, LE;
    var v, w := ToldBy(s), ToldBy(t);
    var x, y := PlacesImage(v, l, LivesImage(v, l)), PlacesImage(w, l, LivesImage(w, l));
    var front := LE(STORE_FORMAT_VERSION, 4);
    assert x == (front + x)[4..] && y == (front + y)[4..];
    PlacesPeel(v, w, l, LivesImage(v, l), LivesImage(w, l));
    LivesPeel(v, w, l);
  }

  // ---- Every reachable state is carried while its image is short ----

  lemma StampShows(a: Stamp)
    ensures Shows(StampC(), a)
  {
    hide OwnerC, StampRest;
    OwnerShows(a.owner);
    PairLength(OwnerC(), StampRest(), StampParts(a));
  }

  lemma EntryShown<V(!new)>(value: Codec<V>, e: (Owner, Winner<V>))
    ensures Shows(WinnerEntry(value), e)
  {
    hide StampC;
    StampShows(e.1.stamp);
    PairLength(StampC(), value, EntryParts(e));
  }

  lemma SlotShown(p: PortRef, e: (SlotKey, Winner<PortValue>))
    ensures Shows(SlotWinner(p), e)
  {
    hide StampC, SlotKeyC, PortValueC;
    StampShows(e.1.stamp);
    PairLength(StampC(), Pair(SlotKeyC(p), PortValueC()), SlotEntryParts(e));
  }

  lemma RowLength<P(!new), V(!new)>(primary: Codec<P>, value: Codec<V>, p: P, group: map<Owner, Winner<V>>)
    ensures |WinnerRow(primary, value).write((p, Entries(group, OwnerRank)))| > |group|
  {
    hide ListOf, Entries, Shows, WinnerEntry;
    var entries := Entries(group, OwnerRank);
    forall e | e in entries
      ensures Shows(WinnerEntry(value), e)
    {
      EntryShown(value, e);
    }
    ListLength(WinnerEntry(value), ANY_COUNT, entries);
    PairLength(primary, ListOf(WinnerEntry(value), ANY_COUNT), (p, entries));
  }

  lemma SlotRowLength(p: PortRef, group: map<SlotKey, Winner<PortValue>>)
    ensures |SlotRow().write((p, Entries(group, SlotRank)))| > |group|
  {
    hide ListOf, Entries, Shows, SlotWinner, PortRefC;
    var entries := Entries(group, SlotRank);
    forall e | e in entries
      ensures Shows(SlotWinner(p), e)
    {
      SlotShown(p, e);
    }
    ListLength(SlotWinner(p), ANY_COUNT, entries);
  }

  /** A table takes more bytes than it has rows, or records in any row. */
  lemma GroupsLength<P(!new), V(!new)>(primary: Codec<P>, value: Codec<V>, prank: P -> int, t: Table<P, Owner, V>)
    ensures var n := |GroupsC(primary, value, prank).write(Winning(t))|;
            n > |t| && (n < TWO_32 ==> Counted(t))
  {
    hide WinnerRow, Entries, TableOf, WinningGroup;
    var w := Winning(t);
    SameDomain(t, w);
    forall p | p in w
      ensures |WinnerRow(primary, value).write((p, Entries(w[p], OwnerRank)))| > |w[p]| == |t[p]|
    {
      RowLength(primary, value, p, w[p]);
      GroupSize(t[p]);
    }
    TableLength(WinnerRow(primary, value), prank, OwnerRank, ANY_COUNT, w);
  }

  lemma GroupSize<K, V>(group: map<K, Folded<V>>)
    ensures |WinningGroup(group)| == |group|
  {
    SameDomain(group, WinningGroup(group));
  }

  lemma SlotsLength(t: Table<PortRef, SlotKey, PortValue>)
    ensures |SlotsC().write(Winning(t))| < TWO_32 ==> Counted(t)
  {
    hide SlotRow, Entries, TableOf, WinningGroup;
    var w := Winning(t);
    SameDomain(t, w);
    forall p | p in w
      ensures |SlotRow().write((p, Entries(w[p], SlotRank)))| > |w[p]| == |t[p]|
    {
      SlotRowLength(p, w[p]);
      GroupSize(t[p]);
    }
    TableLength(SlotRow(), PortRank, SlotRank, ANY_COUNT, w);
  }

  lemma FiledIn<P(!new), V(!new)>(s: RegistryState, t: Table<P, Owner, V>, key: (P, Owner) -> Key,
                                  claim: (P, V) -> Claim)
    requires RecordsOk(s)
    requires forall p, o :: At(s, key(p, o)) == Lift(Cell(t, p, o), v => claim(p, v)) && KeyOwner(key(p, o)) == o
    ensures OwnFiled(t)
  {
    hide At;
    forall p, o | p in t && o in t[p]
      ensures t[p][o].meta.owner == o
    {
      assert Cell(t, p, o) == Some(t[p][o]);
      assert RecordOk(s, key(p, o), At(s, key(p, o)).value.meta);
    }
  }

  ghost predicate AllFiled(s: RegistryState)
  {
    && OwnFiled(s.objects) && OwnFiled(s.endpoints) && OwnFiled(s.subjects) && OwnFiled(s.lifecycles)
    && OwnFiled(s.reincarnations) && OwnFiled(s.objectCapabilities) && OwnFiled(s.portCapabilities)
  }

  lemma RecordsFiledAll(s: RegistryState)
    requires RecordsOk(s)
    ensures AllFiled(s)
  {
    hide RecordsOk, OwnFiled;
    FiledIn(s, s.objects, (x, o) => ObjectKey(x, o), (x, v) => ObjectClaim(x, v));
    FiledIn(s, s.endpoints, (x, o) => EndpointKey(x, o), (x, v) => EndpointClaim(x, v));
    FiledIn(s, s.subjects, (x, o) => SubjectKey(x, o), (x, v) => SubjectClaim(x, v));
    FiledIn(s, s.lifecycles, (x, o) => LifecycleKey(x, o), (x, v) => LifecycleClaim(x, v));
    FiledIn(s, s.reincarnations, (x, o) => ReincarnationKey(x, o), (x, v) => ReincarnationClaim(x, v));
    FiledIn(s, s.objectCapabilities, (x, o) => ObjectCapabilityKey(x, o), (x, v) => ObjectCapabilityClaim(x, v));
    FiledIn(s, s.portCapabilities, (x, o) => PortCapabilityKey(x, o), (x, v) => PortCapabilityClaim(x, v));
  }

  lemma PlacesReady(s: RegistryState, l: Limits, rest: Bytes)
    requires ContentsFit(s, l) && AllFiled(s) && |PlacesImage(ToldBy(s), l, rest)| < TWO_32
    ensures PlacesCarried(ToldBy(s), l)
  {
    hide GroupsC, SlotsC, RecordsFit, SlotsFit, Winning, OwnFiled, Counted, Identity, SideRefC, ObjectC, EndpointC,
         SubjectC, Total, Accepts;
    IdentityLawful();
    ReferencesTotal();
    GroupsLength(Identity(), ObjectC(l), IdRank, s.objects);
    GroupsLength(Identity(), EndpointC(l), IdRank, s.endpoints);
    GroupsLength(SideRefC(), SubjectC(), SideRank, s.subjects);
    SlotsLength(s.ports);
    GroupsAccepted(Identity(), ObjectC(l), IdRank, l, s.objects);
    GroupsAccepted(Identity(), EndpointC(l), IdRank, l, s.endpoints);
    GroupsAccepted(SideRefC(), SubjectC(), SideRank, l, s.subjects);
    SlotsAccepted(l, s.ports);
  }

  lemma LivesReady(s: RegistryState, l: Limits)
    requires ContentsFit(s, l) && AllFiled(s) && |LivesImage(ToldBy(s), l)| < TWO_32
    ensures LivesCarried(ToldBy(s), l)
  {
    hide GroupsC, RecordsFit, SlotsFit, Winning, OwnFiled, Counted, Identity, PortRefC, LifecycleC, ReincarnationC,
         NominalC, PortCapabilityC, Total, Accepts;
    IdentityLawful();
    ReferencesTotal();
    GroupsLength(Identity(), LifecycleC(l), IdRank, s.lifecycles);
    GroupsLength(Identity(), ReincarnationC(l), IdRank, s.reincarnations);
    GroupsLength(Identity(), NominalC(l), IdRank, s.objectCapabilities);
    GroupsLength(PortRefC(), PortCapabilityC(l), PortRank, s.portCapabilities);
    GroupsAccepted(Identity(), LifecycleC(l), IdRank, l, s.lifecycles);
    GroupsAccepted(Identity(), ReincarnationC(l), IdRank, l, s.reincarnations);
    GroupsAccepted(Identity(), NominalC(l), IdRank, l, s.objectCapabilities);
    GroupsAccepted(PortRefC(), PortCapabilityC(l), PortRank, l, s.portCapabilities);
  }

  lemma PlacesLonger(w: Told, l: Limits, rest: Bytes)
    ensures |PlacesImage(w, l, rest)| >= |rest|
    ensures |PlacesImage(w, l, rest)| >= |GroupsC(Identity(), ObjectC(l), IdRank).write(w.objects)|
  {
    hide GroupsC, SlotsC;
  }

  lemma HealthyCarried(s: RegistryState, l: Limits, h: nat)
    requires Healthy(s, l, h) && |ProvenanceImage(s, l)| < TWO_32
    ensures Carried(s, l)
  {
    hide ContentsFit, AllFiled, PlacesImage, LivesImage, PlacesCarried, LivesCarried, LE, ToldBy, Healthy;
    HealthyContents(s, l, h);
    assert AllFiled(s) by { HealthyFiled(s, l, h); }
    PlacesLonger(ToldBy(s), l, LivesImage(ToldBy(s), l));
    PlacesReady(s, l, LivesImage(ToldBy(s), l));
    LivesReady(s, l);
  }

  lemma HealthyFiled(s: RegistryState, l: Limits, h: nat)
    requires Healthy(s, l, h)
    ensures AllFiled(s)
  {
    hide AllFiled, RecordsOk, ShapeOk, CatalogueOk;
    RecordsFiledAll(s);
  }

  // ---- The digest ----

  /** The image does not fit an encoder. */
  ghost predicate Oversize(s: RegistryState, l: Limits) { |ProvenanceImage(s, l)| > ENCODER_CEILING }

  /** What build_snapshot() digests: an encoder that failed holds nothing, and nobody asks whether it did. */
  ghost function Digested(s: RegistryState, l: Limits): Bytes
  {
    if Oversize(s, l) then [] else ProvenanceImage(s, l)
  }

  /**
    * Two registries digest the same bytes if and only if both images are too long, whatever they are
    * of, or neither is and their winning claims are the same.
    */
  lemma DigestExactly(s: RegistryState, t: RegistryState, l: Limits, h: nat)
    requires Healthy(s, l, h) && Healthy(t, l, h)
    ensures Digested(s, l) == Digested(t, l) <==>
            || (Oversize(s, l) && Oversize(t, l))
            || (!Oversize(s, l) && !Oversize(t, l) && ToldBy(s) == ToldBy(t))
  {
    hide Healthy, ToldBy, PlacesImage, LivesImage, Carried;
    assert |ProvenanceImage(s, l)| >= 4 && |ProvenanceImage(t, l)| >= 4;
    if !Oversize(s, l) && !Oversize(t, l) {
      HealthyCarried(s, l, h);
      HealthyCarried(t, l, h);
      if ProvenanceImage(s, l) == ProvenanceImage(t, l) { ImageInjective(s, t, l); }
    }
  }

  lemma {:induction false} HealthyRun(id: Id, openedAt: I64, l: Limits, h: nat, evs: seq<Event>)
    requires h <= l.maxHistoryPerKey && l.maxClaimsPerPort >= 1
    ensures Healthy(Run(EmptyState(id, openedAt), l, h, evs), l, h)
    decreases |evs|
  {
    hide Healthy, Step;
    if evs == [] {
      HealthyStart(id, openedAt, l, h);
    } else {
      HealthyRun(id, openedAt, l, h, evs[..|evs| - 1]);
      HealthyStep(Run(EmptyState(id, openedAt), l, h, evs[..|evs| - 1]), l, h, evs[|evs| - 1]);
    }
  }

  lemma HealthyStart(id: Id, openedAt: I64, l: Limits, h: nat)
    requires h <= l.maxHistoryPerKey && l.maxClaimsPerPort >= 1
    ensures Healthy(EmptyState(id, openedAt), l, h)
  {
    hide Good;
    GoodStart(id, openedAt, l, h);
  }

  /** The same of any two runs of new registries. */
  lemma RunsTold(id: Id, openedAt: I64, id': Id, openedAt': I64, l: Limits, h: nat, p: seq<Event>, q: seq<Event>)
    requires h <= l.maxHistoryPerKey && l.maxClaimsPerPort >= 1
    ensures var s, t := Run(EmptyState(id, openedAt), l, h, p), Run(EmptyState(id', openedAt'), l, h, q);
            Digested(s, l) == Digested(t, l) <==>
            || (Oversize(s, l) && Oversize(t, l))
            || (!Oversize(s, l) && !Oversize(t, l) && ToldBy(s) == ToldBy(t))
  {
    hide Healthy, Run, ToldBy, Digested, Oversize;
    HealthyRun(id, openedAt, l, h, p);
    HealthyRun(id', openedAt', l, h, q);
    DigestExactly(Run(EmptyState(id, openedAt), l, h, p), Run(EmptyState(id', openedAt'), l, h, q), l, h);
  }

  // ---- It happens ----

  const WIDE: Limits := Limits(0x100_0000, 16, 16, 16, 4, 4, 16, 8, 8, 64, 16, 8)

  function Item(n: U64): Evidence
  {
    Evidence(Header(n, 7, 1, n, 0, 0, [], EVIDENCE_SCHEMA_VERSION),
             RegisterObject(ObjectDescriptor(n, 0, [], [], [], [SideDescriptor(0, 0, 1)],
               NominalCapability(0, 0, 1, 0, 0, 0, false, []))))
  }

  /** One source opens a session and registers n objects. */
  function Stock(n: nat): seq<Event>
    requires n < TWO_64
  {
    if n == 0 then [Opening(CLERK, 1, 1, true)] else Stock(n - 1) + [Ingesting(Item(n), 1, true)]
  }

  /** The clerk is heard, and has registered the objects 1 to n. */
  ghost predicate Listed(s: RegistryState, n: nat)
  {
    && 7 in s.sources && s.sources[7].described && Owner(7, 1) in s.sessions
    && |s.objects| == n && forall x :: x in s.objects ==> x <= n
  }

  lemma StockOpens()
    ensures Listed(OpenSession(EmptyState(1, 0), WIDE, CLERK, 1, 1, true), 0)
  {
  }

  lemma ItemShaped(n: U64)
    requires n >= 1
    ensures ValidShape(Item(n), WIDE)
  {
  }

  lemma ItemListed(s: RegistryState, n: nat)
    requires Listed(s, n) && n < WIDE.maxObjects
    ensures Listed(IngestRecord(s, WIDE, 8, Item(n + 1), 1, true, true).state, n + 1)
  {
    hide IngestRecord, ValidShape, IncarnationOf;
    var e, o := Item(n + 1), Owner(7, 1);
    var meta := MetaOf(s, e, 1, true);
    var c := ObjectClaim(n + 1, e.payload.objectDescriptor);
    ItemShaped(n + 1);
    SingleWrite(s, WIDE, 8, e, 1, true, true, c, Effective(Accepted, Fenced(s, o), false, false));
    IngestKeepsCatalogue(s, WIDE, 8, e, 1, true, true);
    var s' := IngestRecord(s, WIDE, 8, e, 1, true, true).state;
    assert s'.objects == s.objects[n + 1 := map[][o := Folded(meta, e.payload.objectDescriptor, [], 0)]];
    assert n + 1 !in s.objects;
  }

  lemma {:induction false} StockListed(n: nat)
    requires n <= WIDE.maxObjects
    ensures Listed(Run(EmptyState(1, 0), WIDE, 8, Stock(n)), n)
  {
    hide IngestRecord, OpenSession, Listed;
    var evs := Stock(n);
    if n == 0 {
      StockOpens();
      assert evs[..0] == [] && evs[0] == Opening(CLERK, 1, 1, true);
    } else {
      StockListed(n - 1);
      assert evs[..|evs| - 1] == Stock(n - 1);
      ItemListed(Run(EmptyState(1, 0), WIDE, 8, Stock(n - 1)), n - 1);
    }
  }

  lemma StockOversize(s: RegistryState, l: Limits)
    requires |s.objects| >= ENCODER_CEILING
    ensures Oversize(s, l)
  {
    hide GroupsC, PlacesImage, LivesImage, Winning, LE;
    GroupsLength(Identity(), ObjectC(l), IdRank, s.objects);
    PlacesLonger(ToldBy(s), l, LivesImage(ToldBy(s), l));
  }

  /** From 8 Mi objects on, another object does not change the digest: nothing is digested. */
  lemma OversizeReached(n: nat)
    requires ENCODER_CEILING <= n < WIDE.maxObjects
    ensures var s, t := Run(EmptyState(1, 0), WIDE, 8, Stock(n)), Run(EmptyState(1, 0), WIDE, 8, Stock(n + 1));
            Digested(s, WIDE) == Digested(t, WIDE) == [] && ToldBy(s) != ToldBy(t)
  {
    hide Run, Stock, Oversize, Winning;
    var s, t := Run(EmptyState(1, 0), WIDE, 8, Stock(n)), Run(EmptyState(1, 0), WIDE, 8, Stock(n + 1));
    StockListed(n);
    StockListed(n + 1);
    StockOversize(s, WIDE);
    StockOversize(t, WIDE);
    WinningSize(s.objects);
    WinningSize(t.objects);
  }

  lemma WinningSize<P, K, V>(t: Table<P, K, V>)
    ensures |Winning(t)| == |t|
  {
    SameDomain(t, Winning(t));
  }
}
