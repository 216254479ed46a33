// What the port answers guarantee: at the authority that places it a side sits in one place, and
// every answer is justified by the claims it cites.

module Answers {
  import opened Words
  import opened Evidence
  import opened Ordering
  import opened State
  import opened Lifecycle
  import opened Derive
  import opened Sessions
  import opened Placement
  import opened Bounds
  import opened Reachable

  /** The port answers Attached and one of its edges puts the side there at authority a. */
  ghost predicate AttachedHere(s: RegistryState, l: Limits, policy: Policy, port: PortRef, side: SideRef, a: Authority)
  {
    var view := DerivePort(s, l, policy, port);
    view.state == Attached && exists i ::
      0 <= i < |view.edges| && view.edges[i].subject == side && view.edges[i].authority == a
  }

  /** The side's own records put it somewhere, at authority a. */
  ghost predicate PlacedAt(s: RegistryState, side: SideRef, policy: Policy, a: Authority)
  {
    AttachedWins(s, side, policy) && BestOf(SideAuthorities(s, side, policy, true)) == a
  }

  lemma EdgesShown(s: RegistryState, l: Limits, policy: Policy, port: PortRef, i: nat)
    requires i < |DerivePort(s, l, policy, port).edges|
    ensures SlotAuthorities(s, policy, port) != {}
    ensures DerivePort(s, l, policy, port).edges[i].subject in SubjectsAt(s, policy, port)
    ensures DerivePort(s, l, policy, port).edges[i].authority == PortAuthority(s, policy, port)
  {
    hide SlotAuthorities, TopSlots, Cite, SlotValidation, StateOf, CapabilityOf, ConflictNotes, EdgeNotes;
    var sides := Sorted(SubjectsAt(s, policy, port), SideRank);
    assert DerivePort(s, l, policy, port).edges == EdgesOf(s, l, policy, port, sides);
    assert sides[i] in sides;
  }

  /** A slot that binds a side is backed by a winning or outranked record of the side itself, at the same authority. */
  lemma SlotBacked(s: RegistryState, policy: Policy, port: PortRef, key: SlotKey)
    requires PlacementOk(s) && SlotsFiled(s.ports)
    requires key in LiveSlots(s, policy, port) && !s.ports[port][key].value.empty
    ensures var side := s.ports[port][key].value.subject;
            && ObjectExists(s, side.objectId)
            && key.owner in SideOwners(s, side, policy, true)
            && s.subjects[side][key.owner].meta == s.ports[port][key].meta
            && s.subjects[side][key.owner].value.port == port
  {
    assert key.port == port;
    assert Behind(s, key);
  }

  lemma TwoDistinct<T>(s: set<T>, a: T, b: T)
    requires a in s && b in s && a != b
    ensures |s| >= 2
  {
    SubsetSize({a, b}, s);
  }

  lemma BookedTwice(s: RegistryState, policy: Policy, side: SideRef, p: PortRef, q: PortRef)
    requires ObjectExists(s, side.objectId) && AttachedWins(s, side, policy)
    requires p in TopPorts(s, side, policy) && q in TopPorts(s, side, policy) && p != q
    ensures DoubleBooked(s, side, policy)
  {
    hide SideAuthorities, TopPorts, TopSides, IncarnationOf, SideValidation, ObjectExists;
    TwoDistinct(TopPorts(s, side, policy), p, q);
  }

  lemma SlotPlacesSide(s: RegistryState, policy: Policy, port: PortRef, side: SideRef, a: Authority)
    requires PlacementOk(s) && SlotsFiled(s.ports)
    requires PlacedAt(s, side, policy, a)
    requires SlotAuthorities(s, policy, port) != {} && PortAuthority(s, policy, port) == a
            && side in SubjectsAt(s, policy, port)
    ensures ObjectExists(s, side.objectId) && port in TopPorts(s, side, policy)
  {
    hide PlacementOk, SlotLive, LiveSides, IncarnationOf;
    var key :| key in TopSlots(s, policy, port, false) && s.ports[port][key].value.subject == side;
    SlotBacked(s, policy, port, key);
    assert key.owner in TopSides(s, side, policy);
  }

  lemma BookedConflicts(s: RegistryState, policy: Policy, port: PortRef, side: SideRef)
    requires SlotAuthorities(s, policy, port) != {} && side in SubjectsAt(s, policy, port)
            && DoubleBooked(s, side, policy)
    ensures StateOf(s, policy, port) == Conflicting
  {
    hide DoubleBooked, SlotAuthorities, CapabilityOf;
    var key :| key in TopSlots(s, policy, port, false) && s.ports[port][key].value.subject == side;
  }

  /**
    * Side exclusivity: while a side's own records place it at authority a, at most one port answers
    * Attached with an edge for it at that authority.
    */
  lemma SideExclusive(s: RegistryState, l: Limits, policy: Policy, side: SideRef, a: Authority, p: PortRef, q: PortRef)
    requires PlacementOk(s) && SlotsFiled(s.ports)
    requires PlacedAt(s, side, policy, a)
    requires AttachedHere(s, l, policy, p, side, a) && AttachedHere(s, l, policy, q, side, a)
    ensures p == q
  {
    hide PlacementOk, TopPorts, TopSlots, SlotAuthorities, SubjectsAt, DoubleBooked;
    var i :| 0 <= i < |DerivePort(s, l, policy, p).edges| && DerivePort(s, l, policy, p).edges[i].subject == side
             && DerivePort(s, l, policy, p).edges[i].authority == a;
    var j :| 0 <= j < |DerivePort(s, l, policy, q).edges| && DerivePort(s, l, policy, q).edges[j].subject == side
             && DerivePort(s, l, policy, q).edges[j].authority == a;
    EdgesShown(s, l, policy, p, i);
    EdgesShown(s, l, policy, q, j);
    if p != q {
      SlotPlacesSide(s, policy, p, side, a);
      SlotPlacesSide(s, policy, q, side, a);
      BookedTwice(s, policy, side, p, q);
      BookedConflicts(s, policy, p, side);
      assert false;
    }
  }

  /** The same on every run, from an empty registry on. */
  lemma SideExclusiveOnRuns(id: Id, openedAt: I64, l: Limits, h: nat, evs: seq<Event>,
                            policy: Policy, side: SideRef, a: Authority, p: PortRef, q: PortRef)
    requires l.maxClaimsPerPort >= 1
    requires var s := Run(EmptyState(id, openedAt), l, h, evs);
             && PlacedAt(s, side, policy, a)
             && AttachedHere(s, l, policy, p, side, a) && AttachedHere(s, l, policy, q, side, a)
    ensures p == q
  {
    hide Run, PlacementOk, AttachedHere, PlacedAt;
    GoodStart(id, openedAt, l, h);
    GoodRun(EmptyState(id, openedAt), l, h, evs);
    SideExclusive(Run(EmptyState(id, openedAt), l, h, evs), l, policy, side, a, p, q);
  }

  // ---- Answers are justified ----

  /** A set of values is no larger than the set it was computed from. */
  lemma ImageSize<S, T>(a: set<S>, b: set<T>, f: S --> T)
    requires forall x :: x in a ==> f.requires(x)
    requires forall y :: y in b ==> exists x :: x in a && f(x) == y
    ensures |b| <= |a|
    decreases |a|
  {
    if b != {} {
      var y :| y in b;
      var x :| x in a && f(x) == y;
      forall z | z in b - {y}
        ensures exists w :: w in a - {x} && f(w) == z
      {
        var w :| w in a && f(w) == z;
        assert w in a - {x};
      }
      ImageSize(a - {x}, b - {y}, f);
    }
  }

  lemma AttachedState(s: RegistryState, policy: Policy, port: PortRef)
    requires StateOf(s, policy, port) == Attached
    ensures SlotAuthorities(s, policy, port) != {}
    ensures TopSlots(s, policy, port, false) != {} && TopSlots(s, policy, port, true) == {}
    ensures 1 <= |SubjectsAt(s, policy, port)| <= CapabilityOf(s, port).maxAttachments
    ensures forall side :: side in SubjectsAt(s, policy, port) ==> !DoubleBooked(s, side, policy)
  {
    hide SlotAuthorities, DoubleBooked, CapabilityOf, SlotLive;
    var key :| key in TopSlots(s, policy, port, false);
    assert s.ports[port][key].value.subject in SubjectsAt(s, policy, port);
  }

  /** The subjects of a port in the order its edges show them. */
  ghost function ShownSides(s: RegistryState, policy: Policy, port: PortRef): (r: seq<SideRef>)
    requires SlotAuthorities(s, policy, port) != {}
    ensures |r| == |SubjectsAt(s, policy, port)|
    ensures forall i :: 0 <= i < |r| ==> r[i] in SubjectsAt(s, policy, port)
  {
    var sides := Sorted(SubjectsAt(s, policy, port), SideRank);
    assert forall i :: 0 <= i < |sides| ==> sides[i] in sides;
    sides
  }

  lemma ShownOnce(s: RegistryState, policy: Policy, port: PortRef)
    requires SlotAuthorities(s, policy, port) != {}
    ensures var sides := ShownSides(s, policy, port); forall i, j :: 0 <= i < j < |sides| ==> sides[i] != sides[j]
  {
    hide SlotAuthorities, SubjectsAt, SideRank;
    SideRankInjective();
    SortedAscends(SubjectsAt(s, policy, port), SideRank);
  }

  lemma PortEdges(s: RegistryState, l: Limits, policy: Policy, port: PortRef)
    requires SlotAuthorities(s, policy, port) != {} && TopSlots(s, policy, port, false) != {}
    ensures var view := DerivePort(s, l, policy, port);
            var sides := ShownSides(s, policy, port);
            && |view.edges| == |sides|
            && (forall i :: 0 <= i < |sides| ==> view.edges[i].subject == sides[i])
            && |view.emptinessClaims| == |TopSlots(s, policy, port, true)|
  {
    hide SlotAuthorities, DoubleBooked, CapabilityOf, EdgeNotes, ConflictNotes, SlotValidation, TopSlots, SubjectsAt,
         StateOf, SideRank;
    var sides := ShownSides(s, policy, port);
    assert DerivePort(s, l, policy, port).edges == EdgesOf(s, l, policy, port, sides);
    forall i | 0 <= i < |sides|
      ensures EdgesOf(s, l, policy, port, sides)[i].subject == sides[i]
    {
      assert sides[i] in sides;
    }
  }

  /** Attached: one to the admitted number of subjects, none booked elsewhere, no claim that the port is empty. */
  lemma AttachedJustified(s: RegistryState, l: Limits, policy: Policy, port: PortRef)
    requires DerivePort(s, l, policy, port).state == Attached
    ensures var view := DerivePort(s, l, policy, port);
            && 1 <= |view.edges| <= view.capability.maxAttachments
            && view.emptinessClaims == []
            && (forall i :: 0 <= i < |view.edges| ==> !DoubleBooked(s, view.edges[i].subject, policy))
            && (forall i, j :: 0 <= i < j < |view.edges| ==> view.edges[i].subject != view.edges[j].subject)
  {
    hide DerivePort, SlotAuthorities, DoubleBooked, CapabilityOf, TopSlots, SubjectsAt, StateOf;
    ViewState(s, l, policy, port);
    AttachedState(s, policy, port);
    PortEdges(s, l, policy, port);
    ShownOnce(s, policy, port);
  }

  lemma ViewState(s: RegistryState, l: Limits, policy: Policy, port: PortRef)
    ensures DerivePort(s, l, policy, port).state == StateOf(s, policy, port)
    ensures DerivePort(s, l, policy, port).capability == CapabilityOf(s, port)
  {
    hide SlotAuthorities, CapabilityOf, TopSlots, SubjectsAt, EdgesOf, EdgeNotes, ConflictNotes, SlotValidation, Cite,
         AnyDoubleBooked;
  }

  lemma SideRankInjective()
    ensures Injective(SideRank)
  {
  }

  lemma CapabilityPositive(s: RegistryState, l: Limits, port: PortRef)
    requires ValuesOk(s, l)
    ensures CapabilityOf(s, port).maxAttachments >= 1
  {
    var endpoint := Group(s.endpoints, port.endpoint);
    if Unfenced(s, Group(s.portCapabilities, port)) == {} && endpoint != map[] {
      var o :| o in endpoint;
      var w := WinningOwner(endpoint, endpoint.Keys);
      EndpointValue(s, l, port.endpoint, w);
    }
  }

  lemma EndpointValue(s: RegistryState, l: Limits, x: Id, o: Owner)
    requires ValuesOk(s, l) && Has(s.endpoints, x, o)
    ensures s.endpoints[x][o].value.defaultCapability.maxAttachments >= 1
  {
    var k := Keys.EndpointKey(x, o);
    assert Keys.At(s, k).Some?;
  }

  ghost predicate CitesTwo(notes: seq<Note>)
  {
    exists i :: 0 <= i < |notes| && |notes[i].claims| >= 2
  }

  lemma CitesTwoAppend(a: seq<Note>, b: seq<Note>)
    ensures CitesTwo(a) || CitesTwo(b) <==> CitesTwo(a + b)
  {
    if CitesTwo(a) {
      var i :| 0 <= i < |a| && |a[i].claims| >= 2;
      assert |(a + b)[i].claims| >= 2;
    }
    if CitesTwo(b) {
      var i :| 0 <= i < |b| && |b[i].claims| >= 2;
      assert |(a + b)[|a| + i].claims| >= 2;
    }
    if CitesTwo(a + b) {
      var i :| 0 <= i < |a + b| && |(a + b)[i].claims| >= 2;
      if i < |a| { assert |a[i].claims| >= 2; } else { assert |b[i - |a|].claims| >= 2; }
    }
  }

  lemma BookedTop(s: RegistryState, policy: Policy, side: SideRef)
    requires DoubleBooked(s, side, policy)
    ensures |DeriveSide(s, side, policy).top| >= 2
  {
    hide SideAuthorities, IncarnationOf, SideValidation;
    ImageSize(TopSides(s, side, policy), TopPorts(s, side, policy),
      o requires o in TopSides(s, side, policy) => s.subjects[side][o].value.port);
  }

  lemma {:induction false} BookingCites(s: RegistryState, policy: Policy, port: PortRef, sides: seq<SideRef>,
                                        side: SideRef)
    requires side in sides && DoubleBooked(s, side, policy)
    ensures CitesTwo(BookingNotes(s, policy, port, sides))
    decreases |sides|
  {
    hide DoubleBooked, DeriveSide, CitesTwo;
    var first := if DoubleBooked(s, sides[0], policy)
      then [Note(ObjectSideDoubleBooked, Some(sides[0]), Some(port),
        SortBy(DeriveSide(s, sides[0], policy).top, ClaimRank))]
      else [];
    var rest := BookingNotes(s, policy, port, sides[1..]);
    assert BookingNotes(s, policy, port, sides) == first + rest;
    CitesTwoAppend(first, rest);
    if side == sides[0] {
      BookedTop(s, policy, side);
      CitesOne(first[0]);
    } else {
      BookingCites(s, policy, port, sides[1..], side);
    }
  }

  lemma CitesOne(n: Note)
    requires |n.claims| >= 2
    ensures CitesTwo([n])
  {
    assert |[n][0].claims| >= 2;
  }

  lemma TopSlotsStored(s: RegistryState, policy: Policy, port: PortRef)
    requires SlotAuthorities(s, policy, port) != {}
    ensures TopSlots(s, policy, port, false) <= Group(s.ports, port).Keys
    ensures TopSlots(s, policy, port, true) <= Group(s.ports, port).Keys
  {
    hide SlotAuthorities, SlotLive;
  }

  lemma TooManyCites(s: RegistryState, policy: Policy, port: PortRef)
    requires SlotAuthorities(s, policy, port) != {} && |SubjectsAt(s, policy, port)| >= 2
    ensures |TopSlots(s, policy, port, false)| >= 2
  {
    hide SlotAuthorities, SlotLive;
    ImageSize(TopSlots(s, policy, port, false), SubjectsAt(s, policy, port),
      key requires key in TopSlots(s, policy, port, false) => s.ports[port][key].value.subject);
  }

  lemma MixedCites(s: RegistryState, policy: Policy, port: PortRef)
    requires SlotAuthorities(s, policy, port) != {}
    requires TopSlots(s, policy, port, false) != {} && TopSlots(s, policy, port, true) != {}
    ensures |TopSlots(s, policy, port, false) + TopSlots(s, policy, port, true)| >= 2
  {
    hide SlotAuthorities, LiveSlots;
    var a :| a in TopSlots(s, policy, port, false);
    var b :| b in TopSlots(s, policy, port, true);
    TwoDistinct(TopSlots(s, policy, port, false) + TopSlots(s, policy, port, true), a, b);
  }

  /** Conflicting: some note cites at least two of the claims that cannot be reconciled. */
  lemma ConflictJustified(s: RegistryState, l: Limits, policy: Policy, port: PortRef)
    requires ValuesOk(s, l)
    requires DerivePort(s, l, policy, port).state == Conflicting
    ensures CitesTwo(DerivePort(s, l, policy, port).conflicts)
  {
    hide SlotAuthorities, DoubleBooked, CapabilityOf, EdgeNotes, SlotValidation, CitesTwo, SubjectsAt, TopSlots,
         BookingNotes, Cite, EdgesOf;
    CapabilityPositive(s, l, port);
    TopSlotsStored(s, policy, port);
    var occupied, vacant := TopSlots(s, policy, port, false), TopSlots(s, policy, port, true);
    var sides := Sorted(SubjectsAt(s, policy, port), SideRank);
    var tooMany := if |SubjectsAt(s, policy, port)| > CapabilityOf(s, port).maxAttachments
                   then [Note(TooManyAttachments, None, Some(port), Cite(s, port, occupied))] else [];
    var mixed := if vacant != {} then [Note(EmptyAndOccupied, None, Some(port), Cite(s, port, occupied + vacant))]
      else [];
    var booked := BookingNotes(s, policy, port, sides);
    var notes := tooMany + mixed + booked;
    assert ConflictNotes(s, policy, port) == notes;
    CitesTwoAppend(tooMany + mixed, booked);
    CitesTwoAppend(tooMany, mixed);
    if tooMany != [] {
      TooManyCites(s, policy, port);
      CitesOne(tooMany[0]);
    } else if mixed != [] {
      MixedCites(s, policy, port);
      CitesOne(mixed[0]);
    } else {
      var side :| side in SubjectsAt(s, policy, port) && DoubleBooked(s, side, policy);
      BookingCites(s, policy, port, sides, side);
    }
    var edges := EdgesOf(s, l, policy, port, sides);
    CitesTwoAppend(EdgeNotes(edges), notes);
  }
}
