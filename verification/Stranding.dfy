// A compaction that strands its store: the reader of a state image bounds the owners of one
// object by the number of sources, but owners are source incarnations.

module Stranding {
  import opened Words
  import opened Evidence
  import opened Ordering
  import opened State
  import opened Fold
  import opened Ingest
  import opened Keys
  import opened Effects
  import opened Sessions
  import opened Invariants
  import opened MapCodec
  import opened StateImage
  import opened Incarnations
  import opened Codec
  import opened Wire
  import opened Records
  import opened EvidenceCodec
  import opened Retirement
  import opened Falls
  import opened WireSizes
  import opened Log
  import opened StoreFile
  import opened Recovery
  import opened Durability
  import Bounds

  const CABLE: Id := 9
  const SCANNER: SourceDescriptor := SourceDescriptor(7, [], Authority(Observed, 1), [])
  const ONE_SOURCE: Limits := Limits(16, 16, 16, 16, 1, 4, 16, 8, 8, 64, 16, 8)

  function Descriptor(): ObjectDescriptor
  {
    ObjectDescriptor(CABLE, 0, [], [], [], [SideDescriptor(0, 0, 1)], NominalCapability(0, 0, 1, 0, 0, 0, false, []))
  }

  function Registration(incarnation: U64): Evidence
  {
    Evidence(Header(incarnation + 1, 7, incarnation, 1, 0, 0, [], EVIDENCE_SCHEMA_VERSION),
      RegisterObject(Descriptor()))
  }

  lemma ShapedRegistration(incarnation: U64)
    requires 1 <= incarnation <= 2
    ensures ValidShape(Registration(incarnation), ONE_SOURCE)
  {
  }

  lemma OpensNext(s: RegistryState, incarnation: U64)
    requires 1 <= incarnation && s.sources.Keys <= {7}
    requires 7 in s.sources ==> s.sources[7].currentIncarnation < incarnation && s.sources[7].described
    ensures var s' := OpenSession(s, ONE_SOURCE, SCANNER, incarnation, incarnation as I64, true);
            && s'.sources.Keys == {7} && s'.sources[7].currentIncarnation == incarnation && s'.sources[7].described
            && Owner(7, incarnation) in s'.sessions && s.sessions.Keys <= s'.sessions.Keys
            && s' == s.(sources := s'.sources, sessions := s'.sessions)
    requires incarnation <= 2
  {
    assert 7 !in s.sources ==> s.sources.Keys == {};
    assert 7 !in s.sources ==> |s.sources| == |s.sources.Keys| == 0;
  }

  lemma RegisteredAt(s: RegistryState, x: Id, o: Owner)
    ensures At(s, ObjectKey(x, o)).Some? <==> x in s.objects && o in s.objects[x]
  {
  }

  lemma SameObjects(s: RegistryState, t: RegistryState, x: Id, o: Owner)
    requires t.objects == s.objects
    ensures At(t, ObjectKey(x, o)) == At(s, ObjectKey(x, o))
  {
  }

  /** The first registration. */
  lemma RegisteredOnce(s1: RegistryState)
    requires s1.sources.Keys == {7} && s1.sources[7].described && Owner(7, 1) in s1.sessions && s1.objects == map[]
    ensures var s2 := IngestRecord(s1, ONE_SOURCE, 8, Registration(1), 1, true, true).state;
            At(s2, ObjectKey(CABLE, Owner(7, 1))).Some? && At(s2, ObjectKey(CABLE, Owner(7, 2))).None?
  {
    hide IngestRecord, ValidShape, At;
    ShapedRegistration(1);
    RegisteredAt(s1, CABLE, Owner(7, 1));
    RegisteredAt(s1, CABLE, Owner(7, 2));
    FreshRegistration(s1, ONE_SOURCE, 8, Registration(1), 1);
    OtherOwnersUntouched(s1, ONE_SOURCE, 8, Registration(1), 1, true, true, ObjectKey(CABLE, Owner(7, 2)));
  }

  /** The second, beside the first. */
  lemma RegisteredTwice(s3: RegistryState)
    requires s3.sources.Keys == {7} && s3.sources[7].described && Owner(7, 2) in s3.sessions
    requires At(s3, ObjectKey(CABLE, Owner(7, 1))).Some? && At(s3, ObjectKey(CABLE, Owner(7, 2))).None?
    ensures var s4 := IngestRecord(s3, ONE_SOURCE, 8, Registration(2), 2, true, true).state;
            At(s4, ObjectKey(CABLE, Owner(7, 1))).Some? && At(s4, ObjectKey(CABLE, Owner(7, 2))).Some?
  {
    hide IngestRecord, ValidShape, At;
    ShapedRegistration(2);
    RegisteredAt(s3, CABLE, Owner(7, 1));
    FreshRegistration(s3, ONE_SOURCE, 8, Registration(2), 2);
    IngestOrigin(s3, ONE_SOURCE, 8, Registration(2), 2, true, true, ObjectKey(CABLE, Owner(7, 1)));
  }

  lemma TwoOwners(s: RegistryState)
    requires At(s, ObjectKey(CABLE, Owner(7, 1))).Some? && At(s, ObjectKey(CABLE, Owner(7, 2))).Some?
    ensures CABLE in s.objects && |s.objects[CABLE]| >= 2 && !SizesFit(s, ONE_SOURCE)
  {
    var group := s.objects[CABLE];
    Bounds.SubsetSize({Owner(7, 1), Owner(7, 2)}, group.Keys);
    assert |group| == |group.Keys|;
  }

  // ---- Everything about this run is small ----

  predicate Others(s: RegistryState)
  {
    && s.endpoints == map[] && s.subjects == map[] && s.ports == map[] && s.lifecycles == map[]
    && s.reincarnations == map[] && s.objectCapabilities == map[] && s.portCapabilities == map[]
  }

  predicate Plain(f: Folded<ObjectDescriptor>) { f.value == Descriptor() && f.superseded == [] }

  /** One source, two incarnations of it, and what they registered. */
  ghost predicate Slim(s: RegistryState)
  {
    && Others(s) && s.sources.Keys <= {7} && (7 in s.sources ==> s.sources[7].descriptor == SCANNER)
    && s.sessions.Keys <= {Owner(7, 1), Owner(7, 2)} && s.objects.Keys <= {CABLE}
    && (CABLE in s.objects ==> s.objects[CABLE].Keys <= {Owner(7, 1), Owner(7, 2)})
    && (forall o :: Has(s.objects, CABLE, o) ==> Plain(s.objects[CABLE][o]))
  }

  lemma HeadSlim(s: RegistryState, l: Limits)
    requires Slim(s)
    ensures AtMost(HeadC(l), StateParts(s).0, 246)
  {
    hide Word32, Identity, Signed, OwnerC, SourceRecordC, SessionC, Refine, Times32, AtMost, Pair, MapOf;
    var p := StateParts(s).0;
    NumbersAtMost(0, p.0, p.1.1.0);
    RefineAtMost(Word32(), Current, p.0, 4);
    IdentityAtMost(p.1.0);
    SourcesSlim(s, l);
    SessionsSlim(s, l);
    PairAtMost(SourcesC(l), SessionsC(l), p.1.1.1, 66, 152);
    PairAtMost(Signed(), Pair(SourcesC(l), SessionsC(l)), p.1.1, 8, 218);
    PairAtMost(Identity(), Pair(Signed(), Pair(SourcesC(l), SessionsC(l))), p.1, 16, 226);
    PairAtMost(Refine(Word32(), Current), Pair(Identity(), Pair(Signed(), Pair(SourcesC(l), SessionsC(l)))), p, 4, 242);
  }

  lemma SourcesSlim(s: RegistryState, l: Limits)
    requires Slim(s)
    ensures AtMost(SourcesC(l), s.sources, 66)
  {
    hide Identity, SourceRecordC, AtMost, Pair, MapOf;
    forall x | x in s.sources
      ensures AtMost(Pair(Identity(), SourceRecordC(l)), (x, s.sources[x]), 62)
    {
      IdentityAtMost(x);
      SourceRecordAtMost(s.sources[x], l);
      PairAtMost(Identity(), SourceRecordC(l), (x, s.sources[x]), 16, 46);
    }
    Bounds.SubsetSize(s.sources.Keys, {7});
    assert |s.sources| == |s.sources.Keys| <= 1;
    MapAtMost(Pair(Identity(), SourceRecordC(l)), IdRank, l.maxSources, s.sources, 62);
    MoreAtMost(SourcesC(l), s.sources, 4 + |s.sources| * 62, 66);
  }

  lemma SessionsSlim(s: RegistryState, l: Limits)
    requires Slim(s)
    ensures AtMost(SessionsC(l), s.sessions, 152)
  {
    hide AtMost, SessionsC;
    TwoSessions(s.sessions, l);
  }

  lemma TwoSessions(sessions: map<Owner, SessionRecord>, l: Limits)
    requires sessions.Keys <= {Owner(7, 1), Owner(7, 2)}
    ensures AtMost(SessionsC(l), sessions, 152)
  {
    hide OwnerC, SessionC, AtMost, Pair, MapOf, Times32;
    forall o | o in sessions
      ensures AtMost(Pair(OwnerC(), SessionC()), (o, sessions[o]), 74)
    {
      OwnerAtMost(o);
      SessionAtMost(sessions[o]);
      PairAtMost(OwnerC(), SessionC(), (o, sessions[o]), 24, 50);
    }
    Bounds.SubsetSize(sessions.Keys, {Owner(7, 1), Owner(7, 2)});
    assert |sessions| == |sessions.Keys| <= 2;
    MapAtMost(Pair(OwnerC(), SessionC()), OwnerRank, Times32(l.maxSources, 64), sessions, 74);
    MoreAtMost(SessionsC(l), sessions, 4 + |sessions| * 74, 152);
  }

  lemma ObjectsSlim(s: RegistryState, l: Limits)
    requires Slim(s)
    ensures AtMost(ObjectsC(l), s.objects, 386)
  {
    hide Identity, ObjectC, AtMost, OwnedTable;
    Bounds.SubsetSize(s.objects.Keys, {CABLE});
    assert |s.objects| == |s.objects.Keys| <= 1;
    IdentityAtMost(CABLE);
    ObjectAtMost(Descriptor(), l);
    forall p | p in s.objects
      ensures AtMost(Identity(), p, 16) && |s.objects[p]| <= 2
    {
      Bounds.SubsetSize(s.objects[p].Keys, {Owner(7, 1), Owner(7, 2)});
      assert |s.objects[p]| == |s.objects[p].Keys|;
    }
    forall p, o | p in s.objects && o in s.objects[p]
      ensures AtMost(ObjectC(l), s.objects[p][o].value, 70) && s.objects[p][o].superseded == []
    {
      assert Has(s.objects, CABLE, o) && Plain(s.objects[CABLE][o]);
    }
    OneGroupAtMost(Identity(), ObjectC(l), IdRank, l, l.maxObjects, s.objects, 16, 70);
  }

  lemma PlacementsSlim(s: RegistryState, l: Limits)
    requires Slim(s)
    ensures AtMost(PlacementsC(l), StateParts(s).1.0, 398)
  {
    hide Identity, SideRefC, EndpointC, SubjectC, ObjectC, AtMost, OwnedTable, PortTable, Pair, Times32;
    var p := StateParts(s).1.0;
    ObjectsSlim(s, l);
    NoRecordsAtMost(Identity(), EndpointC(l), IdRank, l, l.maxEndpoints);
    NoRecordsAtMost(SideRefC(), SubjectC(), SideRank, l, Times32(l.maxObjects, l.maxSidesPerObject));
    NoSlotsAtMost(l);
    PairAtMost(SubjectsC(l), PortTable(l), p.1.1, 4, 4);
    PairAtMost(EndpointsC(l), Pair(SubjectsC(l), PortTable(l)), p.1, 4, 8);
    PairAtMost(ObjectsC(l), Pair(EndpointsC(l), Pair(SubjectsC(l), PortTable(l))), p, 386, 12);
  }

  lemma LifetimesSlim(s: RegistryState, l: Limits)
    requires Slim(s)
    ensures AtMost(LifetimesC(l), StateParts(s).1.1, 16)
  {
    hide Identity, PortRefC, LifecycleC, ReincarnationC, NominalC, PortCapabilityC, AtMost, OwnedTable, Pair, Times32;
    var p := StateParts(s).1.1;
    NoRecordsAtMost(Identity(), LifecycleC(l), IdRank, l, l.maxObjects);
    NoRecordsAtMost(Identity(), ReincarnationC(l), IdRank, l, l.maxObjects);
    NoRecordsAtMost(Identity(), NominalC(l), IdRank, l, l.maxObjects);
    NoRecordsAtMost(PortRefC(), PortCapabilityC(l), PortRank, l, Times32(l.maxEndpoints, l.maxPortsPerEndpoint));
    PairAtMost(NominalsC(l), PortCapabilitiesC(l), p.1.1, 4, 4);
    PairAtMost(ReincarnationsC(l), Pair(NominalsC(l), PortCapabilitiesC(l)), p.1, 4, 8);
    PairAtMost(LifecyclesC(l), Pair(ReincarnationsC(l), Pair(NominalsC(l), PortCapabilitiesC(l))), p, 4, 12);
  }

  lemma SlimImage(s: RegistryState, l: Limits)
    requires Slim(s)
    ensures AtMost(StateC(l), s, 660)
  {
    hide HeadC, PlacementsC, LifetimesC, AtMost, Pair, Slim;
    HeadSlim(s, l);
    PlacementsSlim(s, l);
    LifetimesSlim(s, l);
    var p := StateParts(s);
    PairAtMost(PlacementsC(l), LifetimesC(l), p.1, 398, 16);
    PairAtMost(HeadC(l), Pair(PlacementsC(l), LifetimesC(l)), p, 246, 414);
    IsoAtMost(StateRaw(l), (q: (Head, (Placements, Lifetimes))) => MakeState(q), (t: RegistryState) => StateParts(t), s,
      660);
  }

  lemma ClearSlim(s: RegistryState)
    requires Slim(s)
    ensures Slim(ClearVolatile(s))
  {
    assert forall o :: Has(ClearTable(s.objects), CABLE, o) ==> Has(s.objects, CABLE, o);
  }

  lemma OpenSlim(s: RegistryState, incarnation: U64)
    requires Slim(s) && 1 <= incarnation <= 2
    requires 7 in s.sources ==> s.sources[7].currentIncarnation < incarnation && s.sources[7].described
    ensures Slim(OpenSession(s, ONE_SOURCE, SCANNER, incarnation, incarnation as I64, true))
  {
    hide OpenAnswer, SessionAfterOpen;
    OpenEffect(s, ONE_SOURCE, SCANNER, incarnation, incarnation as I64, true);
  }

  lemma RegisterSlim(s: RegistryState, incarnation: U64)
    requires Slim(s) && 1 <= incarnation <= 2 && KnownSession(s, Registration(incarnation))
    requires At(s, ObjectKey(CABLE, Owner(7, incarnation))).None?
    ensures Slim(IngestRecord(s, ONE_SOURCE, 8, Registration(incarnation), incarnation as I64, true, true).state)
  {
    hide IngestRecord, ValidShape, IncarnationOf;
    var e := Registration(incarnation);
    var meta := MetaOf(s, e, incarnation as I64, true);
    var c := ObjectClaim(CABLE, Descriptor());
    ShapedRegistration(incarnation);
    assert ClaimsOf(e) == [c];
    OutcomeByKey(s, c, meta);
    RoomForCable(s);
    SingleWrite(s, ONE_SOURCE, 8, e, incarnation as I64, true, true, c,
      Effective(Accepted, Fenced(s, meta.owner), false, false));
    IngestKeepsCatalogue(s, ONE_SOURCE, 8, e, incarnation as I64, true, true);
    RegisteredAt(s, CABLE, Owner(7, incarnation));
    SlimWith(s, IngestRecord(s, ONE_SOURCE, 8, e, incarnation as I64, true, true).state, meta);
  }

  lemma RoomForCable(s: RegistryState)
    requires Slim(s)
    ensures |s.objects| < ONE_SOURCE.maxObjects
  {
    Bounds.SubsetSize(s.objects.Keys, {CABLE});
    assert |s.objects| == |s.objects.Keys|;
  }

  lemma SlimWith(s: RegistryState, s': RegistryState, meta: Attestation)
    requires Slim(s) && meta.owner in {Owner(7, 1), Owner(7, 2)} && !Has(s.objects, CABLE, meta.owner)
    requires s' == s.(objects := FoldIn(s.objects, CABLE, meta.owner, meta, Descriptor(), 8), sessions := s'.sessions)
    requires s'.sessions.Keys == s.sessions.Keys
    ensures Slim(s')
  {
    hide FoldWin;
  }

  // ---- The store ----

  /** One source registers an object, restarts as a new incarnation, and registers it again. */
  function Uses(): seq<Action>
  {
    [OpenAction(SCANNER, 1, 1, 1), IngestAction(Registration(1), 1), OpenAction(SCANNER, 2, 2, 2),
     IngestAction(Registration(2), 2)]
  }

  /** The store takes records of a thousand bytes. */
  ghost predicate Ordinary(c: Config) { Chains(c.step) && c.max >= 1000 }

  lemma OpeningDurable(c: Config, incarnation: U64, recordedAt: I64)
    requires Ordinary(c)
    ensures Durable(c, OpeningRecord(ONE_SOURCE, SCANNER, incarnation, recordedAt))
  {
    hide SourceC, Word64, Signed, Pair, AtMost;
    var l := ONE_SOURCE;
    SourceAtMost(SCANNER, l);
    NumbersAtMost(incarnation, 0, recordedAt);
    PairAtMost(Word64(), Signed(), (incarnation, recordedAt), 8, 8);
    PairAtMost(SourceC(l), Pair(Word64(), Signed()), (SCANNER, (incarnation, recordedAt)), 29, 16);
    Within(OpeningC(l), (SCANNER, (incarnation, recordedAt)), 45);
  }

  lemma Within<T>(c: Codec<T>, v: T, n: nat)
    requires AtMost(c, v, n)
    ensures |c.write(v)| <= n
  {
  }

  lemma EvidenceDurable(c: Config, incarnation: U64, receivedAt: I64)
    requires Ordinary(c) && 1 <= incarnation <= 2
    ensures Durable(c, EvidenceRecord(ONE_SOURCE, Registration(incarnation), receivedAt))
  {
    hide Word32, Signed, EvidenceC, Pair, AtMost, Refine;
    var l, e := ONE_SOURCE, Registration(incarnation);
    RegistrationAtMost(e, l);
    NumbersAtMost(0, 1, receivedAt);
    RefineAtMost(Word32(), FirstVersion, 1, 4);
    PairAtMost(Signed(), EvidenceC(l), (receivedAt, e), 8, 137);
    PairAtMost(Refine(Word32(), FirstVersion), Pair(Signed(), EvidenceC(l)), (1, (receivedAt, e)), 4, 145);
    Within(EnvelopeC(l), (1, (receivedAt, e)), 149);
  }

  lemma ImageDurable(c: Config, s: RegistryState)
    requires Ordinary(c) && Slim(s)
    ensures Durable(c, ImageRecord(ONE_SOURCE, ImageOf(s)))
  {
    hide StateC, Slim, AtMost;
    ClearSlim(s);
    SlimImage(ImageOf(s), ONE_SOURCE);
    Within(StateC(ONE_SOURCE), ImageOf(s), 660);
  }

  // ---- End to end ----

  lemma OpenActs(c: Config, sys: System, incarnation: U64)
    requires Ordinary(c) && 1 <= incarnation <= 2
    ensures Act(c, ONE_SOURCE, 8, sys, OpenAction(SCANNER, incarnation, incarnation as I64, incarnation as I64)).mem
            == OpenSession(sys.mem, ONE_SOURCE, SCANNER, incarnation, incarnation as I64, true)
  {
    hide OpenSession, OpenAnswer, OpeningRecord, EvidenceRecord, ImageRecord, IngestRecord, Durable;
    OpeningDurable(c, incarnation, incarnation as I64);
  }

  lemma RegisterActs(c: Config, sys: System, incarnation: U64)
    requires Ordinary(c) && 1 <= incarnation <= 2
    ensures Act(c, ONE_SOURCE, 8, sys, IngestAction(Registration(incarnation), incarnation as I64)).mem
            == IngestRecord(sys.mem, ONE_SOURCE, 8, Registration(incarnation), incarnation as I64, true, true).state
  {
    hide OpenSession, OpenAnswer, OpeningRecord, EvidenceRecord, ImageRecord, IngestRecord, Durable, Applied;
    EvidenceDurable(c, incarnation, incarnation as I64);
  }

  /** After the four operations the memory is small, and holds the object under two owners. */
  lemma UsesReach(s0: RegistryState)
    requires s0 == EmptyState(1, 0)
    ensures var s1 := OpenSession(s0, ONE_SOURCE, SCANNER, 1, 1, true);
            var s2 := IngestRecord(s1, ONE_SOURCE, 8, Registration(1), 1, true, true).state;
            var s3 := OpenSession(s2, ONE_SOURCE, SCANNER, 2, 2, true);
            var s4 := IngestRecord(s3, ONE_SOURCE, 8, Registration(2), 2, true, true).state;
            Slim(s0) && Slim(s4) && !SizesFit(s4, ONE_SOURCE)
  {
    hide IngestRecord, OpenSession, At, ValidShape, SizesFit, Slim;
    var s1 := OpenSession(s0, ONE_SOURCE, SCANNER, 1, 1, true);
    var s2 := IngestRecord(s1, ONE_SOURCE, 8, Registration(1), 1, true, true).state;
    var s3 := OpenSession(s2, ONE_SOURCE, SCANNER, 2, 2, true);
    assert Slim(s0) by { EmptySlim(); }
    OpenSlim(s0, 1);
    OpensNext(s0, 1);
    RegisteredAt(s1, CABLE, Owner(7, 1));
    RegisterSlim(s1, 1);
    RegisteredOnce(s1);
    IngestKeepsCatalogue(s1, ONE_SOURCE, 8, Registration(1), 1, true, true);
    OpenSlim(s2, 2);
    OpensNext(s2, 2);
    SameObjects(s2, s3, CABLE, Owner(7, 1));
    SameObjects(s2, s3, CABLE, Owner(7, 2));
    RegisterSlim(s3, 2);
    RegisteredTwice(s3);
    TwoOwners(IngestRecord(s3, ONE_SOURCE, 8, Registration(2), 2, true, true).state);
  }

  lemma EmptySlim()
    ensures Slim(EmptyState(1, 0))
  {
  }

  lemma ActsMore(c: Config, l: Limits, h: nat, sys: System, acts: seq<Action>, a: Action)
    requires AllReadable(c, l, h, sys, acts) && !a.CompactAction?
    ensures Acts(c, l, h, sys, acts + [a]) == Act(c, l, h, Acts(c, l, h, sys, acts), a)
    ensures AllReadable(c, l, h, sys, acts + [a])
  {
    hide Act, SizesFit;
    assert (acts + [a])[..|acts|] == acts;
  }

  lemma ActsFour(c: Config, l: Limits, h: nat, sys: System, acts: seq<Action>)
    requires |acts| == 4 && forall i :: 0 <= i < 4 ==> !acts[i].CompactAction?
    ensures Acts(c, l, h, sys, acts) ==
            Act(c, l, h, Act(c, l, h, Act(c, l, h, Act(c, l, h, sys, acts[0]), acts[1]), acts[2]), acts[3])
    ensures AllReadable(c, l, h, sys, acts)
  {
    hide Act, SizesFit;
    assert Acts(c, l, h, sys, []) == sys && AllReadable(c, l, h, sys, []);
    hide Acts, AllReadable;
    var a, b, d := [acts[0]], [acts[0], acts[1]], [acts[0], acts[1], acts[2]];
    ActsMore(c, l, h, sys, [], acts[0]);
    assert [] + [acts[0]] == a;
    ActsMore(c, l, h, sys, a, acts[1]);
    assert a + [acts[1]] == b;
    ActsMore(c, l, h, sys, b, acts[2]);
    assert b + [acts[2]] == d;
    ActsMore(c, l, h, sys, d, acts[3]);
    assert d + [acts[3]] == acts;
  }

  /** What the four operations leave in memory. */
  lemma UsesMemory(c: Config)
    requires Ordinary(c)
    ensures var mem := Acts(c, ONE_SOURCE, 8, Boot(ONE_SOURCE, 1, 0), Uses()).mem;
            Slim(mem) && !SizesFit(mem, ONE_SOURCE)
    ensures AllReadable(c, ONE_SOURCE, 8, Boot(ONE_SOURCE, 1, 0), Uses())
  {
    hide Act, Acts, IngestRecord, OpenSession, Slim, SizesFit, ImageRecord, AllReadable;
    var l, acts := ONE_SOURCE, Uses();
    var sys0 := Boot(l, 1, 0);
    var sys1 := Act(c, l, 8, sys0, acts[0]);
    var sys2 := Act(c, l, 8, sys1, acts[1]);
    var sys3 := Act(c, l, 8, sys2, acts[2]);
    OpenActs(c, sys0, 1);
    RegisterActs(c, sys1, 1);
    OpenActs(c, sys2, 2);
    RegisterActs(c, sys3, 2);
    UsesReach(sys0.mem);
    ActsFour(c, l, 8, sys0, acts);
  }

  /**
    * A compaction that strands its store.  Four ordinary operations of one source on a new store leave
    * a store that every Open accepts.  Compacting it succeeds, and no Open accepts it again.
    */
  lemma CompactionStrands(c: Config, strict: bool, any: RegistryState)
    requires Ordinary(c)
    ensures var sys := Acts(c, ONE_SOURCE, 8, Boot(ONE_SOURCE, 1, 0), Uses());
            && Sturdy(c, ONE_SOURCE, 8, sys) && Reopens(c, ONE_SOURCE, 8, strict, any, sys)
            && Durable(c, ImageRecord(ONE_SOURCE, ImageOf(sys.mem)))
            && !Reopens(c, ONE_SOURCE, 8, strict, any, Act(c, ONE_SOURCE, 8, sys, CompactAction))
  {
    hide Act, Acts, Slim, SizesFit, ImageRecord, AllReadable, Sturdy, Reopens, Durable;
    var l := ONE_SOURCE;
    var sys := Acts(c, l, 8, Boot(l, 1, 0), Uses());
    UsesMemory(c);
    EmptySlim();
    ImageDurable(c, EmptyState(1, 0));
    BootSturdy(c, l, 8, 1, 0);
    RunSturdy(c, l, 8, Boot(l, 1, 0), Uses());
    ImageDurable(c, sys.mem);
    SturdyReopens(c, l, 8, strict, any, sys);
    CompactionExactly(c, l, 8, strict, sys, any);
  }
}
