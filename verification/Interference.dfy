// Weak sources do not interfere: whatever a source below a port's winning authority says
// about attachments, the port's answer stays the same but for the claims it lists as
// overridden.

module Interference {
  import opened Words
  import opened Evidence
  import opened Ordering
  import opened State
  import opened Lifecycle
  import opened Derive
  import opened Ingest
  import opened Sessions
  import opened Keys
  import opened Effects
  import opened Invariants
  import opened Placement
  import opened Bounds
  import opened Reachable
  import opened Answers

  // ---- States that differ in one owner's placement records ----

  /** The catalogue and every table but subjects and ports. */
  predicate SameGround(s: RegistryState, t: RegistryState)
  {
    && t.sources == s.sources && t.objects == s.objects && t.endpoints == s.endpoints
    && t.lifecycles == s.lifecycles && t.reincarnations == s.reincarnations
    && t.objectCapabilities == s.objectCapabilities && t.portCapabilities == s.portCapabilities
  }

  /** Only the placement records of o may differ. */
  ghost predicate DifferAt(s: RegistryState, t: RegistryState, o: Owner)
  {
    && SameGround(s, t)
    && (forall side, w :: w != o ==> Cell(t.subjects, side, w) == Cell(s.subjects, side, w))
    && (forall p, key: SlotKey :: key.owner != o ==> Cell(t.ports, p, key) == Cell(s.ports, p, key))
  }

  lemma GroundLookups(s: RegistryState, t: RegistryState)
    requires SameGround(s, t)
    ensures forall o :: Fenced(t, o) == Fenced(s, o)
    ensures forall x :: IncarnationOf(t, x) == IncarnationOf(s, x)
    ensures forall x :: ObjectExists(t, x) == ObjectExists(s, x)
  {
    forall x
      ensures IncarnationOf(t, x) == IncarnationOf(s, x)
    {
      assert LiveTargets(t, x) == LiveTargets(s, x);
    }
  }

  lemma GroundLifecycle(s: RegistryState, t: RegistryState, x: Id)
    requires SameGround(s, t)
    ensures LifecycleOf(t, x) == LifecycleOf(s, x)
  {
    hide IncarnationOf, Fenced;
    GroundLookups(s, t);
    assert LifecycleOwners(t, x) == LifecycleOwners(s, x);
    assert ReincarnationOwners(t, x) == ReincarnationOwners(s, x);
    assert CandidateAuthorities(t, x) == CandidateAuthorities(s, x);
  }

  lemma GroundCatalogue(s: RegistryState, t: RegistryState, port: PortRef, side: SideRef)
    requires SameGround(s, t)
    ensures CapabilityOf(t, port) == CapabilityOf(s, port)
    ensures SideDescriptorOf(t, side) == SideDescriptorOf(s, side)
  {
    assert Unfenced(t, Group(t.portCapabilities, port)) == Unfenced(s, Group(s.portCapabilities, port));
  }

  /** The live slots of other owners are the same. */
  lemma StrongSlots(s: RegistryState, t: RegistryState, o: Owner, policy: Policy, port: PortRef, key: SlotKey)
    requires DifferAt(s, t, o) && key.owner != o
    ensures key in Group(t.ports, port) <==> key in Group(s.ports, port)
    ensures key in LiveSlots(t, policy, port) <==> key in LiveSlots(s, policy, port)
    ensures key in Group(s.ports, port) ==> t.ports[port][key] == s.ports[port][key]
  {
    hide IncarnationOf, Fenced, LifecycleOf, ObjectExists;
    GroundLookups(s, t);
    assert Cell(t.ports, port, key) == Cell(s.ports, port, key);
    if key in Group(s.ports, port) {
      var side := s.ports[port][key].value.subject;
      GroundLifecycle(s, t, side.objectId);
      assert Cell(t.subjects, side, key.owner) == Cell(s.subjects, side, key.owner);
    }
  }

  // ---- The owner is weak at the port ----

  /** What o asserts about placement, while it counts, is below the authority. */
  ghost predicate WeakOwner(s: RegistryState, o: Owner, a: Authority)
  {
    && (forall side :: Has(s.subjects, side, o) && !Fenced(s, o) ==> Below(s.subjects[side][o].meta.authority, a))
    && (forall p, key: SlotKey :: key.owner == o && Has(s.ports, p, key) && !Fenced(s, o) ==>
      Below(s.ports[p][key].meta.authority, a))
  }

  lemma BestIs(authorities: set<Authority>, a: Authority)
    requires a in authorities && forall b :: b in authorities ==> AuthorityRank(b) <= AuthorityRank(a)
    ensures BestOf(authorities) == a
  {
    AuthorityRankInjective(BestOf(authorities), a);
  }

  /** Slots at the winning authority, and the authority itself, do not depend on a weak owner. */
  lemma SamePortAuthority(s: RegistryState, t: RegistryState, o: Owner, policy: Policy, port: PortRef)
    requires DifferAt(s, t, o) && SlotAuthorities(s, policy, port) != {}
    requires WeakOwner(s, o, PortAuthority(s, policy, port)) && WeakOwner(t, o, PortAuthority(s, policy, port))
    ensures SlotAuthorities(t, policy, port) != {} && PortAuthority(t, policy, port) == PortAuthority(s, policy, port)
  {
    hide SlotLive, AuthorityRank, Below;
    var a := PortAuthority(s, policy, port);
    var key :| key in LiveSlots(s, policy, port) && s.ports[port][key].meta.authority == a;
    LiveUnfenced(s, policy, port, key);
    assert key.owner != o by { NotBelowItself(a); }
    StrongSlots(s, t, o, policy, port, key);
    assert a in SlotAuthorities(t, policy, port);
    forall b | b in SlotAuthorities(t, policy, port)
      ensures AuthorityRank(b) <= AuthorityRank(a)
    {
      var other :| other in LiveSlots(t, policy, port) && t.ports[port][other].meta.authority == b;
      LiveUnfenced(t, policy, port, other);
      if other.owner == o {
        BelowIsLess(b, a);
      } else {
        StrongSlots(s, t, o, policy, port, other);
        assert b in SlotAuthorities(s, policy, port);
      }
    }
    BestIs(SlotAuthorities(t, policy, port), a);
  }

  lemma LiveUnfenced(s: RegistryState, policy: Policy, port: PortRef, key: SlotKey)
    requires key in LiveSlots(s, policy, port)
    ensures !Fenced(s, key.owner) && Has(s.ports, port, key)
  {
  }

  lemma NotBelowItself(a: Authority)
    ensures !Below(a, a)
  {
  }

  lemma BelowIsLess(a: Authority, b: Authority)
    requires Below(a, b)
    ensures AuthorityRank(a) < AuthorityRank(b)
  {
  }

  lemma SameTopSlots(s: RegistryState, t: RegistryState, o: Owner, policy: Policy, port: PortRef, empty: bool)
    requires DifferAt(s, t, o) && SlotAuthorities(s, policy, port) != {} && SlotAuthorities(t, policy, port) != {}
    requires PortAuthority(t, policy, port) == PortAuthority(s, policy, port)
    requires WeakOwner(s, o, PortAuthority(s, policy, port)) && WeakOwner(t, o, PortAuthority(s, policy, port))
    ensures TopSlots(t, policy, port, empty) == TopSlots(s, policy, port, empty)
    ensures forall key :: key in TopSlots(s, policy, port, empty) ==>
              key.owner != o && key in Group(s.ports, port) && key in Group(t.ports, port)
                && t.ports[port][key] == s.ports[port][key]
  {
    hide SlotLive, SlotAuthorities, PortAuthority, AuthorityRank, Below;
    var a := PortAuthority(s, policy, port);
    NotBelowItself(a);
    forall key | key in TopSlots(s, policy, port, empty) || key in TopSlots(t, policy, port, empty)
      ensures key.owner != o
      ensures key in TopSlots(s, policy, port, empty) <==> key in TopSlots(t, policy, port, empty)
      ensures key in Group(s.ports, port) && key in Group(t.ports, port) && t.ports[port][key] == s.ports[port][key]
    {
      if key in TopSlots(s, policy, port, empty) {
        LiveUnfenced(s, policy, port, key);
      } else {
        LiveUnfenced(t, policy, port, key);
      }
      StrongSlots(s, t, o, policy, port, key);
    }
  }

  // ---- Sides ----

  lemma StrongSides(s: RegistryState, t: RegistryState, o: Owner, policy: Policy, side: SideRef, attached: bool,
                    w: Owner)
    requires DifferAt(s, t, o) && w != o
    ensures w in SideOwners(t, side, policy, attached) <==> w in SideOwners(s, side, policy, attached)
    ensures w in SideOwners(s, side, policy, attached) ==> t.subjects[side][w] == s.subjects[side][w]
  {
    hide IncarnationOf, Fenced;
    GroundLookups(s, t);
    assert Cell(t.subjects, side, w) == Cell(s.subjects, side, w);
  }

  lemma SideUnfenced(s: RegistryState, policy: Policy, side: SideRef, attached: bool, w: Owner)
    requires w in SideOwners(s, side, policy, attached)
    ensures !Fenced(s, w) && Has(s.subjects, side, w)
  {
  }

  /** An authority that some attached claim of another owner reaches, above what o can say. */
  ghost predicate Reaches(s: RegistryState, o: Owner, policy: Policy, side: SideRef, a: Authority)
  {
    exists w :: w != o && w in SideOwners(s, side, policy, true) && s.subjects[side][w].meta.authority == a
  }

  lemma SameBestAttached(s: RegistryState, t: RegistryState, o: Owner, policy: Policy, side: SideRef, a: Authority)
    requires DifferAt(s, t, o) && WeakOwner(s, o, a) && WeakOwner(t, o, a) && Reaches(s, o, policy, side, a)
    ensures SideAuthorities(s, side, policy, true) != {} && SideAuthorities(t, side, policy, true) != {}
    ensures BestOf(SideAuthorities(t, side, policy, true)) == BestOf(SideAuthorities(s, side, policy, true))
    ensures AuthorityRank(a) <= AuthorityRank(BestOf(SideAuthorities(s, side, policy, true)))
  {
    hide SideOwners, AuthorityRank, Below;
    var w :| w != o && w in SideOwners(s, side, policy, true) && s.subjects[side][w].meta.authority == a;
    assert a in SideAuthorities(s, side, policy, true);
    var best := BestOf(SideAuthorities(s, side, policy, true));
    var v :| v in SideOwners(s, side, policy, true) && s.subjects[side][v].meta.authority == best;
    SideUnfenced(s, policy, side, true, v);
    if v == o { BelowIsLess(best, a); }
    StrongSides(s, t, o, policy, side, true, v);
    assert best in SideAuthorities(t, side, policy, true);
    forall b | b in SideAuthorities(t, side, policy, true)
      ensures AuthorityRank(b) <= AuthorityRank(best)
    {
      var u :| u in SideOwners(t, side, policy, true) && t.subjects[side][u].meta.authority == b;
      SideUnfenced(t, policy, side, true, u);
      if u == o { BelowIsLess(b, a); } else {
        StrongSides(s, t, o, policy, side, true, u);
        assert b in SideAuthorities(s, side, policy, true);
      }
    }
    BestIs(SideAuthorities(t, side, policy, true), best);
  }

  /** Attached wins exactly when it outranks every detached claim. */
  lemma AttachedWinsIff(s: RegistryState, policy: Policy, side: SideRef)
    requires SideAuthorities(s, side, policy, true) != {}
    ensures AttachedWins(s, side, policy) <==>
            forall w :: w in SideOwners(s, side, policy, false) ==>
              Below(s.subjects[side][w].meta.authority, BestOf(SideAuthorities(s, side, policy, true)))
  {
    hide SideOwners;
    var best := BestOf(SideAuthorities(s, side, policy, true));
    var down := SideAuthorities(s, side, policy, false);
    forall w | w in SideOwners(s, side, policy, false)
      ensures s.subjects[side][w].meta.authority in down
    {
    }
    if down != {} {
      var w :| w in SideOwners(s, side, policy, false) && s.subjects[side][w].meta.authority == BestOf(down);
    }
  }

  lemma SameAttachedWins(s: RegistryState, t: RegistryState, o: Owner, policy: Policy, side: SideRef, a: Authority)
    requires DifferAt(s, t, o) && WeakOwner(s, o, a) && WeakOwner(t, o, a) && Reaches(s, o, policy, side, a)
    ensures AttachedWins(t, side, policy) == AttachedWins(s, side, policy)
  {
    hide SideOwners, AttachedWins;
    SameBestAttached(s, t, o, policy, side, a);
    AttachedWinsIff(s, policy, side);
    AttachedWinsIff(t, policy, side);
    forall w
      ensures w in SideOwners(s, side, policy, false) && w != o ==>
              w in SideOwners(t, side, policy, false) && t.subjects[side][w] == s.subjects[side][w]
      ensures w in SideOwners(t, side, policy, false) && w != o ==> w in SideOwners(s, side, policy, false)
    {
      if w != o { StrongSides(s, t, o, policy, side, false, w); }
    }
    if o in SideOwners(s, side, policy, false) { SideUnfenced(s, policy, side, false, o); }
    if o in SideOwners(t, side, policy, false) { SideUnfenced(t, policy, side, false, o); }
  }

  lemma SameTopSides(s: RegistryState, t: RegistryState, o: Owner, policy: Policy, side: SideRef, a: Authority)
    requires DifferAt(s, t, o) && WeakOwner(s, o, a) && WeakOwner(t, o, a) && Reaches(s, o, policy, side, a)
    ensures SideAuthorities(s, side, policy, true) != {} && SideAuthorities(t, side, policy, true) != {}
    ensures TopSides(t, side, policy) == TopSides(s, side, policy)
    ensures forall w :: w in TopSides(s, side, policy) ==>
              Has(s.subjects, side, w) && Has(t.subjects, side, w) && t.subjects[side][w] == s.subjects[side][w]
    ensures TopPorts(t, side, policy) == TopPorts(s, side, policy)
  {
    hide SideAuthorities, AuthorityRank, Below, LiveSides;
    SameBestAttached(s, t, o, policy, side, a);
    var best := BestOf(SideAuthorities(s, side, policy, true));
    forall w | w in TopSides(s, side, policy) || w in TopSides(t, side, policy)
      ensures w in TopSides(s, side, policy) && w in TopSides(t, side, policy)
      ensures Has(s.subjects, side, w) && Has(t.subjects, side, w) && t.subjects[side][w] == s.subjects[side][w]
    {
      if w in TopSides(s, side, policy) {
        SideUnfenced(s, policy, side, true, w);
      } else {
        SideUnfenced(t, policy, side, true, w);
      }
      if w == o { BelowIsLess(best, a); }
      StrongSides(s, t, o, policy, side, true, w);
    }
  }

  /** When a side is double booked, and what is cited for it. */
  lemma BookedIff(s: RegistryState, policy: Policy, side: SideRef)
    requires SideAuthorities(s, side, policy, true) != {}
    ensures DoubleBooked(s, side, policy) <==>
            ObjectExists(s, side.objectId) && AttachedWins(s, side, policy) && |TopPorts(s, side, policy)| > 1
    ensures DoubleBooked(s, side, policy) ==> DeriveSide(s, side, policy).top == TopClaims(s, side, policy)
  {
    hide SideAuthorities, TopPorts, IncarnationOf, SideValidation, ObjectExists, TopClaims, TopClaimSlots;
  }

  lemma SameTopClaims(s: RegistryState, t: RegistryState, policy: Policy, side: SideRef)
    requires SideAuthorities(s, side, policy, true) != {} && SideAuthorities(t, side, policy, true) != {}
    requires TopSides(t, side, policy) == TopSides(s, side, policy)
    requires forall w :: w in TopSides(s, side, policy) ==>
              Has(s.subjects, side, w) && Has(t.subjects, side, w)
                && t.subjects[side][w].meta == s.subjects[side][w].meta
    ensures TopClaims(t, side, policy) == TopClaims(s, side, policy)
  {
    hide SideAuthorities, TopSides;
    var owners := Sorted(TopSides(s, side, policy), OwnerRank);
    assert forall i :: 0 <= i < |owners| ==> owners[i] in owners;
    assert TopClaims(t, side, policy) == TopClaims(s, side, policy);
  }

  /** Double booking of a side, and the claims cited for it, do not depend on a weak owner. */
  lemma SameBooking(s: RegistryState, t: RegistryState, o: Owner, policy: Policy, side: SideRef, a: Authority)
    requires DifferAt(s, t, o) && WeakOwner(s, o, a) && WeakOwner(t, o, a) && Reaches(s, o, policy, side, a)
    ensures DoubleBooked(t, side, policy) == DoubleBooked(s, side, policy)
    ensures DoubleBooked(s, side, policy) ==> DeriveSide(t, side, policy).top == DeriveSide(s, side, policy).top
  {
    hide SideAuthorities, AttachedWins, TopSides, TopPorts, DoubleBooked, DeriveSide, WeakOwner, Reaches, TopClaims;
    SameAttachedWins(s, t, o, policy, side, a);
    SameTopSides(s, t, o, policy, side, a);
    SameTopClaims(s, t, policy, side);
    BookedIff(s, policy, side);
    BookedIff(t, policy, side);
  }

  // ---- The whole view ----

  function StripEdge(e: Edge): Edge { e.(overridden := [], overriddenTotal := 0) }

  function StripEdges(edges: seq<Edge>): (r: seq<Edge>)
    ensures |r| == |edges|
  {
    seq(|edges|, i requires 0 <= i < |edges| => StripEdge(edges[i]))
  }

  /** A port view without the claims it lists as overridden. */
  function Strip(v: PortView): PortView { v.(edges := StripEdges(v.edges)) }

  /** Everything the answer of a port is built from at its winning authority. */
  ghost predicate SameTop(s: RegistryState, t: RegistryState, policy: Policy, port: PortRef)
  {
    && SameGround(s, t)
    && SlotAuthorities(s, policy, port) != {} && SlotAuthorities(t, policy, port) != {}
    && PortAuthority(t, policy, port) == PortAuthority(s, policy, port)
    && (forall empty :: TopSlots(t, policy, port, empty) == TopSlots(s, policy, port, empty))
    && (forall empty, key :: key in TopSlots(s, policy, port, empty) ==>
          key in Group(s.ports, port) && key in Group(t.ports, port) && t.ports[port][key] == s.ports[port][key])
    && (forall side :: side in SubjectsAt(s, policy, port) ==>
          && DoubleBooked(t, side, policy) == DoubleBooked(s, side, policy)
          && (DoubleBooked(s, side, policy) ==> DeriveSide(t, side, policy).top == DeriveSide(s, side, policy).top))
  }

  lemma SameTopOf(s: RegistryState, t: RegistryState, o: Owner, policy: Policy, port: PortRef)
    requires PlacementOk(s) && SlotsFiled(s.ports)
    requires DifferAt(s, t, o) && SlotAuthorities(s, policy, port) != {}
    requires WeakOwner(s, o, PortAuthority(s, policy, port)) && WeakOwner(t, o, PortAuthority(s, policy, port))
    ensures SameTop(s, t, policy, port)
  {
    hide SlotAuthorities, PlacementOk, DoubleBooked, DeriveSide, SlotLive, SideOwners, PortAuthority;
    var a := PortAuthority(s, policy, port);
    SamePortAuthority(s, t, o, policy, port);
    forall empty
      ensures TopSlots(t, policy, port, empty) == TopSlots(s, policy, port, empty)
      ensures forall key :: key in TopSlots(s, policy, port, empty) ==>
          key in Group(s.ports, port) && key in Group(t.ports, port) && t.ports[port][key] == s.ports[port][key]
    {
      SameTopSlots(s, t, o, policy, port, empty);
    }
    forall side | side in SubjectsAt(s, policy, port)
      ensures DoubleBooked(t, side, policy) == DoubleBooked(s, side, policy)
      ensures DoubleBooked(s, side, policy) ==> DeriveSide(t, side, policy).top == DeriveSide(s, side, policy).top
    {
      var key :| key in TopSlots(s, policy, port, false) && s.ports[port][key].value.subject == side;
      SlotBacked(s, policy, port, key);
      SameTopSlots(s, t, o, policy, port, false);
      assert Reaches(s, o, policy, side, a);
      SameBooking(s, t, o, policy, side, a);
    }
  }

  lemma SameSubjects(s: RegistryState, t: RegistryState, policy: Policy, port: PortRef)
    requires SameTop(s, t, policy, port)
    ensures SubjectsAt(t, policy, port) == SubjectsAt(s, policy, port)
    ensures StateOf(t, policy, port) == StateOf(s, policy, port)
  {
    hide SlotAuthorities, TopSlots, DoubleBooked, DeriveSide, PortAuthority, CapabilityOf, SubjectsAt;
    GroundCatalogue(s, t, port, SideRef(0, 0));
    SameSubjectSet(s, t, policy, port);
  }

  lemma SameSubjectSet(s: RegistryState, t: RegistryState, policy: Policy, port: PortRef)
    requires SameTop(s, t, policy, port)
    ensures SubjectsAt(t, policy, port) == SubjectsAt(s, policy, port)
  {
    hide SlotAuthorities, TopSlots, DoubleBooked, DeriveSide, PortAuthority, SameGround;
  }

  /** Citing and validating the same slots gives the same answer. */
  lemma SameCitation(s: RegistryState, t: RegistryState, port: PortRef, keys: set<SlotKey>)
    requires keys <= Group(s.ports, port).Keys && keys <= Group(t.ports, port).Keys
    requires forall key :: key in keys ==> t.ports[port][key] == s.ports[port][key]
    ensures Cite(t, port, keys) == Cite(s, port, keys)
    ensures SlotValidation(t, port, keys) == SlotValidation(s, port, keys)
  {
    var ordered := Sorted(keys, SlotRank);
    assert forall i :: 0 <= i < |ordered| ==> ordered[i] in ordered;
    assert SlotMetas(t, port, ordered) == SlotMetas(s, port, ordered);
  }

  lemma SameEdge(s: RegistryState, t: RegistryState, l: Limits, policy: Policy, port: PortRef, side: SideRef)
    requires SameTop(s, t, policy, port) && side in SubjectsAt(s, policy, port) && side in SubjectsAt(t, policy, port)
    ensures StripEdge(EdgeOf(t, l, policy, port, side)) == StripEdge(EdgeOf(s, l, policy, port, side))
  {
    hide SlotAuthorities, TopSlots, DoubleBooked, DeriveSide, PortAuthority, CapabilityOf, SideDescriptorOf, StateOf,
         SlotRank, OverriddenList, OverriddenSlots, Cite, SlotValidation;
    GroundCatalogue(s, t, port, side);
    SameSubjects(s, t, policy, port);
    assert SlotsOf(t, policy, port, side) == SlotsOf(s, policy, port, side);
    SameCitation(s, t, port, SlotsOf(s, policy, port, side));
  }

  lemma {:induction false} SameBookingNotes(s: RegistryState, t: RegistryState, policy: Policy, port: PortRef,
                                            sides: seq<SideRef>)
    requires forall i :: 0 <= i < |sides| ==>
               && DoubleBooked(t, sides[i], policy) == DoubleBooked(s, sides[i], policy)
               && (DoubleBooked(s, sides[i], policy) ==>
                 DeriveSide(t, sides[i], policy).top == DeriveSide(s, sides[i], policy).top)
    ensures BookingNotes(t, policy, port, sides) == BookingNotes(s, policy, port, sides)
    decreases |sides|
  {
    hide DoubleBooked, DeriveSide;
    if sides != [] {
      SameBookingNotes(s, t, policy, port, sides[1..]);
    }
  }

  lemma SameConflicts(s: RegistryState, t: RegistryState, policy: Policy, port: PortRef)
    requires SameTop(s, t, policy, port)
    ensures ConflictNotes(t, policy, port) == ConflictNotes(s, policy, port)
  {
    hide SlotAuthorities, TopSlots, DoubleBooked, DeriveSide, PortAuthority, CapabilityOf, SubjectsAt, Cite,
         SlotValidation;
    GroundCatalogue(s, t, port, SideRef(0, 0));
    SameSubjects(s, t, policy, port);
    var occupied, vacant := TopSlots(s, policy, port, false), TopSlots(s, policy, port, true);
    SameCitation(s, t, port, occupied);
    SameCitation(s, t, port, occupied + vacant);
    var sides := Sorted(SubjectsAt(s, policy, port), SideRank);
    assert forall i :: 0 <= i < |sides| ==> sides[i] in sides;
    SameBookingNotes(s, t, policy, port, sides);
  }

  lemma SameEdges(s: RegistryState, t: RegistryState, l: Limits, policy: Policy, port: PortRef, sides: seq<SideRef>)
    requires SameTop(s, t, policy, port)
    requires forall side :: side in sides ==> side in SubjectsAt(s, policy, port) && side in SubjectsAt(t, policy, port)
    ensures StripEdges(EdgesOf(t, l, policy, port, sides)) == StripEdges(EdgesOf(s, l, policy, port, sides))
  {
    hide SlotAuthorities, SubjectsAt, EdgeOf, SameTop;
    assert SlotAuthorities(s, policy, port) != {} && SlotAuthorities(t, policy, port) != {} by {
      SameTopDefined(s, t, policy, port);
    }
    var a, b := EdgesOf(s, l, policy, port, sides), EdgesOf(t, l, policy, port, sides);
    forall i | 0 <= i < |sides|
      ensures StripEdges(b)[i] == StripEdges(a)[i]
    {
      assert sides[i] in sides;
      SameEdge(s, t, l, policy, port, sides[i]);
    }
  }

  lemma SameTopDefined(s: RegistryState, t: RegistryState, policy: Policy, port: PortRef)
    requires SameTop(s, t, policy, port)
    ensures SlotAuthorities(s, policy, port) != {} && SlotAuthorities(t, policy, port) != {}
  {
  }

  /** Notes about an edge do not look at what it overrides. */
  lemma {:induction false} NotesIgnoreOverridden(a: seq<Edge>, b: seq<Edge>)
    requires StripEdges(a) == StripEdges(b)
    ensures EdgeNotes(a) == EdgeNotes(b)
    decreases |a|
  {
    assert |a| == |StripEdges(a)| == |b|;
    if a != [] {
      assert StripEdges(a)[0] == StripEdges(b)[0];
      forall i | 0 <= i < |a[1..]|
        ensures StripEdges(a[1..])[i] == StripEdges(b[1..])[i]
      {
        assert StripEdges(a)[i + 1] == StripEdges(b)[i + 1];
      }
      NotesIgnoreOverridden(a[1..], b[1..]);
    }
  }

  lemma SameView(s: RegistryState, t: RegistryState, l: Limits, policy: Policy, port: PortRef)
    requires SameTop(s, t, policy, port)
    ensures Strip(DerivePort(t, l, policy, port)) == Strip(DerivePort(s, l, policy, port))
  {
    hide SlotAuthorities, TopSlots, DoubleBooked, DeriveSide, PortAuthority, CapabilityOf, SubjectsAt, Cite,
         SlotValidation,
         StateOf, EdgesOf, EdgeNotes, ConflictNotes, StripEdges;
    GroundCatalogue(s, t, port, SideRef(0, 0));
    SameSubjects(s, t, policy, port);
    SameConflicts(s, t, policy, port);
    var occupied, vacant := TopSlots(s, policy, port, false), TopSlots(s, policy, port, true);
    SameCitation(s, t, port, vacant);
    SameCitation(s, t, port, occupied + vacant);
    var sides := Sorted(SubjectsAt(s, policy, port), SideRank);
    SameEdges(s, t, l, policy, port, sides);
    NotesIgnoreOverridden(EdgesOf(t, l, policy, port, sides), EdgesOf(s, l, policy, port, sides));
  }

  // ---- Ingesting from a weak source ----

  ghost predicate PlacementClaims(cs: seq<Claim>)
  {
    forall c :: c in cs ==> c.SubjectClaim? || c.PortClaim?
  }

  lemma ClaimKeepsGround(s: RegistryState, c: Claim, meta: Attestation, h: nat)
    requires c.SubjectClaim? || c.PortClaim?
    ensures SameGround(s, WriteClaim(s, c, meta, h)) && SameGround(s, RingClaim(s, c, meta, h))
  {
    hide Fold.FoldIn, Fold.FoldLosingIn;
  }

  lemma {:induction false} ClaimsKeepGround(s: RegistryState, cs: seq<Claim>, meta: Attestation, h: nat)
    requires PlacementClaims(cs)
    ensures SameGround(s, WriteClaims(s, cs, meta, h)) && SameGround(s, RingClaims(s, cs, meta, h))
    decreases |cs|
  {
    hide WriteClaim, RingClaim;
    if cs != [] {
      assert cs[0] in cs;
      ClaimKeepsGround(s, cs[0], meta, h);
      ClaimsKeepGround(WriteClaim(s, cs[0], meta, h), cs[1..], meta, h);
      ClaimsKeepGround(RingClaim(s, cs[0], meta, h), cs[1..], meta, h);
    }
  }

  lemma PlacementKeepsGround(s: RegistryState, l: Limits, h: nat, e: Evidence, receivedAt: I64, durable: bool)
    requires e.payload.Attach? || e.payload.Detach? || e.payload.Move?
    ensures SameGround(s, IngestRecord(s, l, h, e, receivedAt, durable, true).state)
  {
    hide IngestRecord, WriteClaims, RingClaims, Decide, ValidShape;
    IngestTables(s, l, h, e, receivedAt, durable, true);
    if Applied(s, l, e, receivedAt, durable, true) {
      var meta := MetaOf(s, e, receivedAt, true);
      var staged := Decide(s, l, e, meta).staged;
      DecisionCovers(s, l, e, meta);
      AppliedAccepted(s, l, e, meta);
      assert PlacementClaims(ClaimsOf(e));
      assert PlacementClaims(staged.rings) && PlacementClaims(staged.writes);
      var s1 := RingClaims(s, staged.rings, meta, h);
      ClaimsKeepGround(s, staged.rings, meta, h);
      ClaimsKeepGround(s1, staged.writes, meta, h);
    }
  }

  /** An attachment record changes nothing but placement records of its own owner. */
  lemma PlacementDiffers(s: RegistryState, l: Limits, h: nat, e: Evidence, receivedAt: I64, durable: bool)
    requires e.payload.Attach? || e.payload.Detach? || e.payload.Move?
    requires ShapeOk(s)
    ensures DifferAt(s, IngestRecord(s, l, h, e, receivedAt, durable, true).state, OwnerOf(e))
  {
    hide IngestRecord, At, SameGround;
    var t := IngestRecord(s, l, h, e, receivedAt, durable, true).state;
    PlacementKeepsGround(s, l, h, e, receivedAt, durable);
    ShapeIngest(s, l, h, e, receivedAt, durable, true);
    forall side, w | w != OwnerOf(e)
      ensures Cell(t.subjects, side, w) == Cell(s.subjects, side, w)
    {
      OtherOwnersUntouched(s, l, h, e, receivedAt, durable, true, SubjectKey(side, w));
      CellsAt(s, SlotKey(w, NO_PORT, 0), side, w);
      CellsAt(t, SlotKey(w, NO_PORT, 0), side, w);
    }
    forall p, key: SlotKey | key.owner != OwnerOf(e)
      ensures Cell(t.ports, p, key) == Cell(s.ports, p, key)
    {
      if p == key.port {
        OtherOwnersUntouched(s, l, h, e, receivedAt, durable, true, PortKey(key));
        CellsAt(s, key, SideRef(0, 0), key.owner);
        CellsAt(t, key, SideRef(0, 0), key.owner);
      }
    }
  }

  /** While an owner counts, its records carry its source's authority, so a weak source's owner is weak. */
  lemma WeakSourceWeakOwner(s: RegistryState, o: Owner, a: Authority)
    requires RecordsOk(s) && ShapeOk(s) && o.source in s.sources && Below(s.sources[o.source].descriptor.authority, a)
    ensures WeakOwner(s, o, a)
  {
    hide At, Below;
    forall side | Has(s.subjects, side, o) && !Fenced(s, o)
      ensures Below(s.subjects[side][o].meta.authority, a)
    {
      CellsAt(s, SlotKey(o, NO_PORT, 0), side, o);
      assert At(s, SubjectKey(side, o)).Some?;
    }
    forall p, key: SlotKey | key.owner == o && Has(s.ports, p, key) && !Fenced(s, o)
      ensures Below(s.ports[p][key].meta.authority, a)
    {
      CellsAt(s, key, SideRef(0, 0), o);
      assert At(s, PortKey(key)).Some?;
    }
  }

  lemma UnknownSourceIgnored(s: RegistryState, l: Limits, h: nat, e: Evidence, receivedAt: I64, durable: bool)
    requires e.header.source !in s.sources
    ensures IngestRecord(s, l, h, e, receivedAt, durable, true).state == s
  {
  }

  /**
    * Whatever a source below a port's winning authority publishes about attachments, anywhere, the
    * port's answer is unchanged except for the claims it lists as overridden.
    */
  lemma WeakSourceHarmless(s: RegistryState, l: Limits, h: nat, e: Evidence, receivedAt: I64, durable: bool,
                           policy: Policy, port: PortRef)
    requires Good(s, l, h) && l.maxClaimsPerPort >= 1
    requires e.payload.Attach? || e.payload.Detach? || e.payload.Move?
    requires SlotAuthorities(s, policy, port) != {}
    requires e.header.source in s.sources ==>
            Below(s.sources[e.header.source].descriptor.authority, PortAuthority(s, policy, port))
    ensures Strip(DerivePort(IngestRecord(s, l, h, e, receivedAt, durable, true).state, l, policy, port)) ==
            Strip(DerivePort(s, l, policy, port))
  {
    hide IngestRecord, DerivePort, SlotAuthorities, PortAuthority, Below, PlacementOk, RecordsOk, CatalogueOk,
         ValuesOk, RingsOk, SizesOk,
         DifferAt, WeakOwner, SameTop;
    var t := IngestRecord(s, l, h, e, receivedAt, durable, true).state;
    if e.header.source !in s.sources {
      UnknownSourceIgnored(s, l, h, e, receivedAt, durable);
      return;
    }
    var o := OwnerOf(e);
    var ev := Ingesting(e, receivedAt, durable);
    assert t == Step(s, l, h, ev);
    RecordsStep(s, l, h, ev);
    ShapeStep(s, l, h, ev);
    IngestKeepsCatalogue(s, l, h, e, receivedAt, durable, true);
    PlacementDiffers(s, l, h, e, receivedAt, durable);
    WeakSourceWeakOwner(s, o, PortAuthority(s, policy, port));
    WeakSourceWeakOwner(t, o, PortAuthority(s, policy, port));
    SameTopOf(s, t, o, policy, port);
    SameView(s, t, l, policy, port);
  }
}
