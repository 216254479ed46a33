// When two ports show the same side: exclusivity holds at the authority that places the side, not
// across authorities.

module Sharing {
  import opened Words
  import opened Evidence
  import opened Ordering
  import opened State
  import opened Fold
  import opened Lifecycle
  import opened Ingest
  import opened Effects
  import opened Derive
  import opened Sessions
  import opened Invariants
  import opened Placement
  import opened Bounds
  import opened Reachable
  import opened Answers
  import opened Falls
  import opened Retirement

  /** The port answers Attached, and the side is among its edges. */
  ghost predicate Shows(s: RegistryState, l: Limits, policy: Policy, port: PortRef, side: SideRef)
  {
    var view := DerivePort(s, l, policy, port);
    view.state == Attached && exists i :: 0 <= i < |view.edges| && view.edges[i].subject == side
  }

  /** By the records of the port and of its other sides, the port would show the side. */
  ghost predicate Offers(s: RegistryState, policy: Policy, port: PortRef, side: SideRef)
  {
    && SlotAuthorities(s, policy, port) != {} && side in SubjectsAt(s, policy, port)
    && TopSlots(s, policy, port, true) == {} && |SubjectsAt(s, policy, port)| <= CapabilityOf(s, port).maxAttachments
    && forall other :: other in SubjectsAt(s, policy, port) && other != side ==> !DoubleBooked(s, other, policy)
  }

  /** A port shows a side if and only if it offers it and the side is not double booked. */
  lemma ShownExactly(s: RegistryState, l: Limits, policy: Policy, port: PortRef, side: SideRef)
    ensures Shows(s, l, policy, port, side) <==> Offers(s, policy, port, side) && !DoubleBooked(s, side, policy)
  {
    hide DerivePort, SlotAuthorities, DoubleBooked, CapabilityOf, SlotLive, LiveSlots, PortAuthority;
    ViewState(s, l, policy, port);
    if StateOf(s, policy, port) == Attached {
      AttachedState(s, policy, port);
      ShownSubjects(s, l, policy, port, side);
    } else if Offers(s, policy, port, side) {
      assert TopSlots(s, policy, port, false) != {};
    }
  }

  lemma ShownSubjects(s: RegistryState, l: Limits, policy: Policy, port: PortRef, side: SideRef)
    requires SlotAuthorities(s, policy, port) != {} && TopSlots(s, policy, port, false) != {}
    ensures var edges := DerivePort(s, l, policy, port).edges;
            (exists i :: 0 <= i < |edges| && edges[i].subject == side) <==> side in SubjectsAt(s, policy, port)
  {
    hide DerivePort, SlotAuthorities, TopSlots, SubjectsAt, SideRank;
    PortEdges(s, l, policy, port);
    var edges, sides := DerivePort(s, l, policy, port).edges, ShownSides(s, policy, port);
    if side in SubjectsAt(s, policy, port) {
      assert side in Sorted(SubjectsAt(s, policy, port), SideRank);
      var i :| 0 <= i < |sides| && sides[i] == side;
      assert edges[i].subject == side;
    }
  }

  // ---- Two ports ----

  /** A port that offers a side does so at an authority at which the side's own records place it there. */
  lemma OfferBacked(s: RegistryState, policy: Policy, port: PortRef, side: SideRef)
    requires PlacementOk(s) && SlotsFiled(s.ports) && Offers(s, policy, port, side)
    ensures ObjectExists(s, side.objectId) && PortAuthority(s, policy, port) in SideAuthorities(s, side, policy, true)
    ensures SideAuthorities(s, side, policy, true) != {}
    ensures BestOf(SideAuthorities(s, side, policy, true)) == PortAuthority(s, policy, port) ==>
              port in TopPorts(s, side, policy)
  {
    hide PlacementOk, SlotLive, LiveSides, IncarnationOf, DoubleBooked, CapabilityOf, SlotAuthorities, BestOf;
    var key :| key in TopSlots(s, policy, port, false) && s.ports[port][key].value.subject == side;
    SlotBacked(s, policy, port, key);
    assert s.subjects[side][key.owner].meta.authority in SideAuthorities(s, side, policy, true);
    if BestOf(SideAuthorities(s, side, policy, true)) == PortAuthority(s, policy, port) {
      assert key.owner in TopSides(s, side, policy);
    }
  }

  lemma BookedExactly(s: RegistryState, policy: Policy, side: SideRef)
    requires ObjectExists(s, side.objectId) && SideAuthorities(s, side, policy, true) != {}
    ensures DoubleBooked(s, side, policy) <==>
            AttachedWins(s, side, policy) && |TopPorts(s, side, policy)| > 1
  {
    hide SideAuthorities, TopPorts, TopSides, IncarnationOf, SideValidation, ObjectExists, BestOf;
  }

  lemma SomePort(s: RegistryState, policy: Policy, side: SideRef)
    requires SideAuthorities(s, side, policy, true) != {}
    ensures TopPorts(s, side, policy) != {}
  {
    hide LiveSides, SideOwners;
    var best := BestOf(SideAuthorities(s, side, policy, true));
    var o :| o in SideOwners(s, side, policy, true) && s.subjects[side][o].meta.authority == best;
    assert o in TopSides(s, side, policy);
    assert s.subjects[side][o].value.port in TopPorts(s, side, policy);
  }

  /**
    * Two ports that offer a side both show it if and only if some detachment ties with or outranks
    * the side's attachments, or the authority that places the side names one port only.  Unless a
    * detachment does so, one of the two ports then goes by a lower authority than the side does.
    */
  lemma SharedExactly(s: RegistryState, l: Limits, policy: Policy, side: SideRef, p: PortRef, q: PortRef)
    requires PlacementOk(s) && SlotsFiled(s.ports) && p != q
    requires Offers(s, policy, p, side) && Offers(s, policy, q, side)
    ensures SideAuthorities(s, side, policy, true) != {}
    ensures Shows(s, l, policy, p, side) && Shows(s, l, policy, q, side) <==>
            !AttachedWins(s, side, policy) || |TopPorts(s, side, policy)| == 1
    ensures Shows(s, l, policy, p, side) && Shows(s, l, policy, q, side) && AttachedWins(s, side, policy) ==>
              var best := BestOf(SideAuthorities(s, side, policy, true));
              Below(PortAuthority(s, policy, p), best) || Below(PortAuthority(s, policy, q), best)
  {
    hide PlacementOk, SideAuthorities, TopPorts, Shows, Offers, DoubleBooked, PortAuthority, AuthorityRank,
         SlotAuthorities, ObjectExists, AttachedWins;
    OffersBoth(s, policy, side, p, q);
    OfferBacked(s, policy, p, side);
    OfferBacked(s, policy, q, side);
    BookedExactly(s, policy, side);
    SomePort(s, policy, side);
    ShownExactly(s, l, policy, p, side);
    ShownExactly(s, l, policy, q, side);
    var best := BestOf(SideAuthorities(s, side, policy, true));
    AtMostBest(s, policy, side, PortAuthority(s, policy, p));
    AtMostBest(s, policy, side, PortAuthority(s, policy, q));
    if p in TopPorts(s, side, policy) && q in TopPorts(s, side, policy) {
      TwoDistinct(TopPorts(s, side, policy), p, q);
    }
  }

  lemma OffersBoth(s: RegistryState, policy: Policy, side: SideRef, p: PortRef, q: PortRef)
    requires Offers(s, policy, p, side) && Offers(s, policy, q, side)
    ensures SlotAuthorities(s, policy, p) != {} && SlotAuthorities(s, policy, q) != {}
  {
  }

  lemma AtMostBest(s: RegistryState, policy: Policy, side: SideRef, a: Authority)
    requires a in SideAuthorities(s, side, policy, true)
    ensures var best := BestOf(SideAuthorities(s, side, policy, true)); a == best || Below(a, best)
  {
    hide SideAuthorities, AuthorityRank;
    var best := BestOf(SideAuthorities(s, side, policy, true));
    if AuthorityRank(a) == AuthorityRank(best) { AuthorityRankInjective(a, best); }
  }

  // ---- It happens ----

  const CABLE := ObjectDescriptor(9, 0, [], [], [], [SideDescriptor(0, 0, 1)],
    NominalCapability(0, 0, 1, 0, 0, 0, false, []))
  const PLUG: SideRef := SideRef(9, 0)
  const LEFT: PortRef := PortRef(5, 0)
  const RIGHT: PortRef := PortRef(5, 1)
  const HIGH: Authority := Authority(Authoritative, 1)
  const LOW: Authority := Authority(Observed, 1)
  const AUDITOR: SourceDescriptor := SourceDescriptor(7, [], HIGH, [])
  const SENSOR: SourceDescriptor := SourceDescriptor(8, [], LOW, [])

  function Report(source: Id, id: Id, generation: U64, p: Payload): Evidence
  {
    Evidence(Header(id, source, 1, generation, 0, 0, [], EVIDENCE_SCHEMA_VERSION), p)
  }

  const LISTED := Report(7, 1, 1, RegisterObject(CABLE))
  const SEEN_LEFT := Report(7, 2, 2, Attach(PLUG, LEFT, 1, 0))
  const SEEN_RIGHT := Report(8, 3, 1, Attach(PLUG, RIGHT, 1, 0))

  /** An auditor lists a cable and sees its plug in one port; a sensor of lower authority sees it in another. */
  function SeenTwice(): seq<Event>
  {
    [Opening(AUDITOR, 1, 1, true), Opening(SENSOR, 1, 1, true), Ingesting(LISTED, 1, true),
     Ingesting(SEEN_LEFT, 2, true), Ingesting(SEEN_RIGHT, 3, true)]
  }

  /** Both sources are heard, and nothing is said but about registrations and places. */
  ghost predicate Plain(s: RegistryState)
  {
    && KnownSession(s, LISTED) && KnownSession(s, SEEN_RIGHT) && !Fenced(s, Owner(7, 1)) && !Fenced(s, Owner(8, 1))
    && s.sources[7].descriptor.authority == HIGH && s.sources[8].descriptor.authority == LOW
    && s.lifecycles == map[] && s.reincarnations == map[] && s.endpoints == map[] && s.portCapabilities == map[]
  }

  lemma BothOpen()
    ensures var s := OpenSession(OpenSession(EmptyState(1, 0), ROOMY, AUDITOR, 1, 1, true), ROOMY, SENSOR, 1, 1, true);
            Plain(s) && s.objects == map[] && s.subjects == map[] && s.ports == map[]
  {
  }

  lemma ReportsShaped()
    ensures ValidShape(LISTED, ROOMY) && ValidShape(SEEN_LEFT, ROOMY) && ValidShape(SEEN_RIGHT, ROOMY)
  {
  }

  lemma CableListed(s: RegistryState)
    requires Plain(s) && s.objects == map[] && s.subjects == map[] && s.ports == map[]
    ensures var s' := IngestRecord(s, ROOMY, 8, LISTED, 1, true, true).state;
            Plain(s') && ObjectExists(s', 9) && s'.subjects == map[] && s'.ports == map[]
  {
    hide IngestRecord, ValidShape, IncarnationOf;
    ReportsShaped();
    SingleWrite(s, ROOMY, 8, LISTED, 1, true, true, ObjectClaim(9, CABLE), Accepted);
    IngestKeepsCatalogue(s, ROOMY, 8, LISTED, 1, true, true);
  }

  function SideClaim(e: Evidence): Claim
    requires e.payload.Attach?
  {
    SubjectClaim(e.payload.subject, SubjectValue(e.payload.objectIncarnation, true, e.payload.port, e.payload.slot,
      false, NO_PORT))
  }

  function SlotClaim(e: Evidence): Claim
    requires e.payload.Attach?
  {
    PortClaim(SlotKey(OwnerOf(e), e.payload.port, e.payload.slot), PortValue(e.payload.objectIncarnation, false,
      e.payload.subject))
  }

  /** New to both keys of the record, at a port that has room. */
  predicate FreshAt(s: RegistryState, e: Evidence)
    requires e.payload.Attach?
  {
    && !Has(s.subjects, e.payload.subject, OwnerOf(e)) && e.payload.port !in s.ports
  }

  lemma BothInsert(s: RegistryState, e: Evidence, m: Attestation)
    requires e.payload.Attach? && FreshAt(s, e) && m.owner == OwnerOf(e)
    ensures ClaimsOf(e) == [SideClaim(e), SlotClaim(e)]
    ensures Select(s, ClaimsOf(e), m, Insert) == ClaimsOf(e) && Select(s, ClaimsOf(e), m, Superseded) == []
    ensures forall c :: c in ClaimsOf(e) ==> OutcomeOf(s, c, m) == Insert
  {
    var x, y := SideClaim(e), SlotClaim(e);
    assert OutcomeOf(s, x, m) == Insert && OutcomeOf(s, y, m) == Insert;
    hide OutcomeOf;
    var claims := ClaimsOf(e);
    assert claims == [x, y];
    assert claims[1..] == [y];
    assert Select(s, [y], m, Insert) == [y] && Select(s, [y], m, Superseded) == [] by { assert [y][1..] == []; }
  }

  lemma BothWritten(s: RegistryState, e: Evidence, m: Attestation)
    requires e.payload.Attach? && FreshAt(s, e) && m.owner == OwnerOf(e)
    ensures WriteClaims(s, [SideClaim(e), SlotClaim(e)], m, 8) ==
            s.(subjects := Put(s.subjects, e.payload.subject, OwnerOf(e), Folded(m, SideClaim(e).subjectValue, [], 0)),
               ports := Put(s.ports, e.payload.port, SlotClaim(e).slotKey, Folded(m, SlotClaim(e).portValue, [], 0)))
  {
    var x, y := SideClaim(e), SlotClaim(e);
    var s1 := WriteClaim(s, x, m, 8);
    assert [x, y][1..] == [y] && [y][1..] == [];
    assert WriteClaims(s1, [y], m, 8) == WriteClaim(s1, y, m, 8);
  }

  lemma AttachDecision(s: RegistryState, e: Evidence, m: Attestation)
    requires e.payload.Attach? && FreshAt(s, e) && m.owner == OwnerOf(e)
    ensures var d := Decide(s, ROOMY, e, m);
            d.staged == Staged(m, [], [SideClaim(e), SlotClaim(e)], true) && IsAccepted(d.disposition)
  {
    hide IncarnationOf, ObjectExists, PortExists, OutcomeOf, Select, ClaimsOf;
    BothInsert(s, e, m);
  }

  /** An attachment that is new to both its keys is written at both. */
  lemma FreshAttach(s: RegistryState, e: Evidence, receivedAt: I64)
    requires Heard(s, ROOMY, e, true) && e.payload.Attach? && FreshAt(s, e)
    ensures var s' := IngestRecord(s, ROOMY, 8, e, receivedAt, true, true).state;
            var o, m := OwnerOf(e), MetaOf(s, e, receivedAt, true);
            s' == s.(
              subjects := Put(s.subjects, e.payload.subject, o, Folded(m, SideClaim(e).subjectValue, [], 0)),
              ports := Put(s.ports, e.payload.port, SlotClaim(e).slotKey, Folded(m, SlotClaim(e).portValue, [], 0)),
              sessions := s'.sessions)
  {
    hide ValidShape, Decide, NoteRecord, WriteClaims, FreshAt;
    var m := MetaOf(s, e, receivedAt, true);
    AttachDecision(s, e, m);
    BothWritten(s, e, m);
  }

  lemma PlainObject(s: RegistryState, x: Id)
    requires s.lifecycles == map[] && s.reincarnations == map[]
    ensures IncarnationOf(s, x) == 1 && !Excluded(s, x)
  {
    assert LiveTargets(s, x) == {};
    assert CandidateAuthorities(s, x) == {};
  }

  lemma PlainCapability(s: RegistryState, port: PortRef)
    requires s.endpoints == map[] && s.portCapabilities == map[]
    ensures CapabilityOf(s, port).maxAttachments == 1
  {
    assert Unfenced(s, Group(s.portCapabilities, port)) == {};
  }

  /** A port whose only slot is live and occupied offers its occupant. */
  lemma LoneSlot(s: RegistryState, policy: Policy, port: PortRef, key: SlotKey)
    requires port in s.ports && s.ports[port].Keys == {key} && !s.ports[port][key].value.empty
    requires SlotLive(s, policy, port, key) && CapabilityOf(s, port).maxAttachments >= 1
    ensures Offers(s, policy, port, s.ports[port][key].value.subject)
  {
    hide SlotLive, CapabilityOf, DoubleBooked;
    assert LiveSlots(s, policy, port) == {key};
    var a := s.ports[port][key].meta.authority;
    assert SlotAuthorities(s, policy, port) == {a};
    assert TopSlots(s, policy, port, false) == {key};
    assert SubjectsAt(s, policy, port) == {s.ports[port][key].value.subject};
  }

  function AtPort(m: Attestation, port: PortRef): Folded<SubjectValue>
  {
    Folded(m, SubjectValue(1, true, port, 0, false, NO_PORT), [], 0)
  }

  function InSlot(m: Attestation): Folded<PortValue> { Folded(m, PortValue(1, false, PLUG), [], 0) }

  /** The auditor's word on the plug, and the sensor's, and nothing else about places. */
  ghost predicate BothSpoke(s: RegistryState, m: Attestation, n: Attestation)
  {
    && Plain(s) && ObjectExists(s, 9) && m.authority == HIGH && n.authority == LOW && m.inLifetime && n.inLifetime
    && s.subjects == map[PLUG := map[Owner(7, 1) := AtPort(m, LEFT), Owner(8, 1) := AtPort(n, RIGHT)]]
    && s.ports == map[LEFT := map[SlotKey(Owner(7, 1), LEFT, 0) := InSlot(m)],
                      RIGHT := map[SlotKey(Owner(8, 1), RIGHT, 0) := InSlot(n)]]
    && m.generation == 2 && n.generation == 1
  }

  lemma BothOffer(s: RegistryState, policy: Policy, m: Attestation, n: Attestation)
    requires BothSpoke(s, m, n)
    ensures Offers(s, policy, LEFT, PLUG) && Offers(s, policy, RIGHT, PLUG)
  {
    hide IncarnationOf, LifecycleOf, CapabilityOf, Offers, KnownSession;
    PlainObject(s, 9);
    PlainCapability(s, LEFT);
    PlainCapability(s, RIGHT);
    LoneSlot(s, policy, LEFT, SlotKey(Owner(7, 1), LEFT, 0));
    LoneSlot(s, policy, RIGHT, SlotKey(Owner(8, 1), RIGHT, 0));
  }

  lemma AuditorPlaces(s: RegistryState, policy: Policy, m: Attestation, n: Attestation)
    requires BothSpoke(s, m, n)
    ensures SideAuthorities(s, PLUG, policy, true) == {HIGH, LOW} && TopPorts(s, PLUG, policy) == {LEFT}
  {
    hide IncarnationOf, KnownSession;
    PlainObject(s, 9);
    var a, b := Owner(7, 1), Owner(8, 1);
    assert LiveSides(s, PLUG, policy) == {a, b};
    hide LiveSides;
    assert SideOwners(s, PLUG, policy, true) == {a, b};
    hide SideOwners;
    assert s.subjects[PLUG][a].meta.authority == HIGH && s.subjects[PLUG][b].meta.authority == LOW;
    assert SideAuthorities(s, PLUG, policy, true) == {HIGH, LOW};
    assert BestOf({HIGH, LOW}) == HIGH;
    hide SideAuthorities;
    assert TopSides(s, PLUG, policy) == {a};
    hide TopSides;
    assert TopPorts(s, PLUG, policy) == {LEFT};
  }

  lemma BothShow(s: RegistryState, l: Limits, policy: Policy, m: Attestation, n: Attestation)
    requires BothSpoke(s, m, n) && PlacementOk(s) && SlotsFiled(s.ports)
    ensures Shows(s, l, policy, LEFT, PLUG) && Shows(s, l, policy, RIGHT, PLUG)
  {
    hide BothSpoke, Offers, Shows, TopPorts, PlacementOk, SideAuthorities;
    BothOffer(s, policy, m, n);
    AuditorPlaces(s, policy, m, n);
    SharedExactly(s, l, policy, PLUG, LEFT, RIGHT);
  }

  lemma PlugSeen(s: RegistryState)
    requires Plain(s) && ObjectExists(s, 9) && s.subjects == map[] && s.ports == map[]
    ensures var s1 := IngestRecord(s, ROOMY, 8, SEEN_LEFT, 2, true, true).state;
            var s2 := IngestRecord(s1, ROOMY, 8, SEEN_RIGHT, 3, true, true).state;
            exists m, n :: BothSpoke(s2, m, n)
  {
    hide IngestRecord, ValidShape;
    ReportsShaped();
    FreshAttach(s, SEEN_LEFT, 2);
    var s1 := IngestRecord(s, ROOMY, 8, SEEN_LEFT, 2, true, true).state;
    IngestKeepsCatalogue(s, ROOMY, 8, SEEN_LEFT, 2, true, true);
    var m, n := MetaOf(s, SEEN_LEFT, 2, true), MetaOf(s1, SEEN_RIGHT, 3, true);
    FreshAttach(s1, SEEN_RIGHT, 3);
    var s2 := IngestRecord(s1, ROOMY, 8, SEEN_RIGHT, 3, true, true).state;
    IngestKeepsCatalogue(s1, ROOMY, 8, SEEN_RIGHT, 3, true, true);
    assert BothSpoke(s2, m, n);
  }

  /** One plug, shown attached at two ports, under either policy. */
  lemma SharedReached(policy: Policy)
    ensures var s := Run(EmptyState(1, 0), ROOMY, 8, SeenTwice());
            Shows(s, ROOMY, policy, LEFT, PLUG) && Shows(s, ROOMY, policy, RIGHT, PLUG)
  {
    hide IngestRecord, OpenSession, Plain, ObjectExists, BothSpoke, Shows, PlacementOk;
    var s0, evs := EmptyState(1, 0), SeenTwice();
    var s1 := OpenSession(s0, ROOMY, AUDITOR, 1, 1, true);
    var s2 := OpenSession(s1, ROOMY, SENSOR, 1, 1, true);
    var s3 := IngestRecord(s2, ROOMY, 8, LISTED, 1, true, true).state;
    var s4 := IngestRecord(s3, ROOMY, 8, SEEN_LEFT, 2, true, true).state;
    var s5 := IngestRecord(s4, ROOMY, 8, SEEN_RIGHT, 3, true, true).state;
    BothOpen();
    CableListed(s2);
    PlugSeen(s3);
    assert evs[..4][..3] == evs[..3] && evs[..3][..2] == evs[..2] && evs[..2][..1] == evs[..1] && evs[..1][..0] == [];
    assert Run(s0, ROOMY, 8, evs[..1]) == s1;
    assert Run(s0, ROOMY, 8, evs[..2]) == s2;
    assert Run(s0, ROOMY, 8, evs[..3]) == s3;
    assert Run(s0, ROOMY, 8, evs[..4]) == s4;
    assert Run(s0, ROOMY, 8, evs) == s5;
    assert PlacementOk(s5) && SlotsFiled(s5.ports) by { RunPlaced(evs); }
    var m, n :| BothSpoke(s5, m, n);
    BothShow(s5, ROOMY, policy, m, n);
  }

  lemma RunPlaced(evs: seq<Event>)
    ensures var s := Run(EmptyState(1, 0), ROOMY, 8, evs); PlacementOk(s) && SlotsFiled(s.ports)
  {
    hide Run, PlacementOk;
    GoodStart(1, 0, ROOMY, 8);
    GoodRun(EmptyState(1, 0), ROOMY, 8, evs);
  }
}
