// What the graph depends on.
//
// Two states that agree on the live records have the same graph.  "Agree" comes in two
// strengths: exactly, or up to what belongs to the receiving process (receive times and
// lifetime flags).

module Congruence {
  import opened Words
  import opened Evidence
  import opened Ordering
  import opened State
  import opened Lifecycle
  import opened Derive
  import opened Objects

  datatype Lens = Exact | Timeless

  function EraseMeta(lens: Lens, m: Attestation): Attestation
  {
    if lens.Exact? then m else m.(receivedAt := 0, inLifetime := false)
  }

  function EraseMetas(lens: Lens, ms: seq<Attestation>): (r: seq<Attestation>)
    ensures |r| == |ms|
    ensures forall i :: 0 <= i < |ms| ==> r[i] == EraseMeta(lens, ms[i])
  {
    seq(|ms|, i requires 0 <= i < |ms| => EraseMeta(lens, ms[i]))
  }

  /** Without lifetime flags, only the policy that ignores them makes sense. */
  predicate Admits(lens: Lens, policy: Policy) { lens.Timeless? ==> policy.IncludeAll? }

  predicate SameRecord<V(==)>(lens: Lens, f: Option<Folded<V>>, g: Option<Folded<V>>)
  {
    && f.Some? == g.Some?
    && (f.Some? ==> g.value.value == f.value.value && EraseMeta(lens, g.value.meta) == EraseMeta(lens, f.value.meta))
  }

  /** The tables hold the same records for every owner, or for every owner that is not fenced. */
  ghost predicate TableAgrees<P(!new), V>(lens: Lens, s: RegistryState, a: Table<P, Owner, V>, b: Table<P, Owner, V>,
                                          fencedToo: bool)
  {
    forall p, o :: fencedToo || !Fenced(s, o) ==> SameRecord(lens, Cell(a, p, o), Cell(b, p, o))
  }

  ghost predicate SlotsAgree(lens: Lens, s: RegistryState, a: Table<PortRef, SlotKey, PortValue>,
                             b: Table<PortRef, SlotKey, PortValue>)
  {
    forall p, key: SlotKey :: !Fenced(s, key.owner) ==> SameRecord(lens, Cell(a, p, key), Cell(b, p, key))
  }

  /** Same sources and registrations; same other records of every owner that is not fenced. */
  ghost predicate Agree(lens: Lens, s: RegistryState, t: RegistryState)
  {
    && t.sources == s.sources
    && TableAgrees(lens, s, s.objects, t.objects, true)
    && TableAgrees(lens, s, s.endpoints, t.endpoints, true)
    && TableAgrees(lens, s, s.subjects, t.subjects, false)
    && SlotsAgree(lens, s, s.ports, t.ports)
    && TableAgrees(lens, s, s.lifecycles, t.lifecycles, false)
    && TableAgrees(lens, s, s.reincarnations, t.reincarnations, false)
    && TableAgrees(lens, s, s.objectCapabilities, t.objectCapabilities, false)
    && TableAgrees(lens, s, s.portCapabilities, t.portCapabilities, false)
  }

  // ---- Catalogue, incarnation, lifecycle ----

  lemma AgreeFenced(lens: Lens, s: RegistryState, t: RegistryState)
    requires Agree(lens, s, t)
    ensures forall o :: Fenced(t, o) == Fenced(s, o)
  {
  }

  lemma GroupCell<P, K, V>(t: Table<P, K, V>, p: P, k: K)
    ensures k in Group(t, p) <==> Cell(t, p, k).Some?
    ensures k in Group(t, p) ==> Group(t, p)[k] == Cell(t, p, k).value && t[p][k] == Cell(t, p, k).value
  {
  }

  lemma AgreeExists(lens: Lens, s: RegistryState, t: RegistryState, x: Id)
    requires Agree(lens, s, t)
    ensures ObjectExists(t, x) == ObjectExists(s, x)
    ensures Group(t.objects, x).Keys == Group(s.objects, x).Keys
  {
    forall o
      ensures o in Group(t.objects, x) <==> o in Group(s.objects, x)
    {
      assert SameRecord(lens, Cell(s.objects, x, o), Cell(t.objects, x, o));
    }
    assert Group(t.objects, x).Keys == Group(s.objects, x).Keys;
    assert ObjectExists(s, x) <==> Group(s.objects, x).Keys != {};
    assert ObjectExists(t, x) <==> Group(t.objects, x).Keys != {};
  }

  lemma AgreeIncarnation(lens: Lens, s: RegistryState, t: RegistryState, x: Id)
    requires Agree(lens, s, t)
    ensures IncarnationOf(t, x) == IncarnationOf(s, x)
  {
    hide Fenced;
    AgreeFenced(lens, s, t);
    forall o | !Fenced(s, o)
      ensures SameRecord(lens, Cell(s.reincarnations, x, o), Cell(t.reincarnations, x, o))
    {
    }
    LiveTargetsWithin(lens, s, t, x);
    LiveTargetsWithin(lens, t, s, x);
    assert LiveTargets(t, x) == LiveTargets(s, x);
  }

  lemma LiveTargetsWithin(lens: Lens, s: RegistryState, t: RegistryState, x: Id)
    requires forall o :: Fenced(t, o) == Fenced(s, o)
    requires forall o :: !Fenced(s, o) ==>
      SameRecord(lens, Cell(s.reincarnations, x, o), Cell(t.reincarnations, x, o))
        || SameRecord(lens, Cell(t.reincarnations, x, o), Cell(s.reincarnations, x, o))
    ensures LiveTargets(s, x) <= LiveTargets(t, x)
  {
    hide Fenced;
    forall v | v in LiveTargets(s, x)
      ensures v in LiveTargets(t, x)
    {
      var o :| o in Group(s.reincarnations, x) && !Fenced(s, o) && Group(s.reincarnations, x)[o].value.target == v;
      GroupCell(s.reincarnations, x, o);
      GroupCell(t.reincarnations, x, o);
      assert o in Group(t.reincarnations, x) && Group(t.reincarnations, x)[o].value.target == v;
    }
  }

  /** The groups agree, up to the lens, on these owners. */
  ghost predicate MetasAgree<V>(lens: Lens, a: map<Owner, Folded<V>>, b: map<Owner, Folded<V>>, owners: set<Owner>)
  {
    && owners <= a.Keys && owners <= b.Keys
    && forall o :: o in owners ==> b[o].value == a[o].value && EraseMeta(lens, b[o].meta) == EraseMeta(lens, a[o].meta)
  }

  /** What a live owner's record looks like does not depend on what the lens erases. */
  ghost predicate Respects<V(!new)>(lens: Lens, keep: Folded<V> -> bool)
  {
    forall f: Folded<V>, g: Folded<V> :: g.value == f.value && EraseMeta(lens, g.meta) == EraseMeta(lens, f.meta) ==>
      keep(f) == keep(g)
  }

  lemma FilterAgrees<P(!new), V(!new)>(lens: Lens, s: RegistryState, t: RegistryState, a: Table<P, Owner, V>,
                                       b: Table<P, Owner, V>,
                                       p: P, keep: Folded<V> -> bool, x: set<Owner>, y: set<Owner>)
    requires t.sources == s.sources && TableAgrees(lens, s, a, b, false) && Respects(lens, keep)
    requires forall o :: o in x <==> o in Group(a, p) && !Fenced(s, o) && keep(Group(a, p)[o])
    requires forall o :: o in y <==> o in Group(b, p) && !Fenced(t, o) && keep(Group(b, p)[o])
    ensures x == y && MetasAgree(lens, Group(a, p), Group(b, p), x)
  {
    forall o | !Fenced(s, o)
      ensures o in Group(a, p) <==> o in Group(b, p)
      ensures o in Group(a, p) ==> Group(b, p)[o].value == Group(a, p)[o].value
                                   && EraseMeta(lens, Group(b, p)[o].meta) == EraseMeta(lens, Group(a, p)[o].meta)
    {
      assert SameRecord(lens, Cell(a, p, o), Cell(b, p, o));
    }
    assert forall o :: Fenced(t, o) == Fenced(s, o);
    assert forall o :: o in x <==> o in y;
  }

  /** The same records carry the same authorities. */
  lemma SameAuthorities<V>(lens: Lens, a: map<Owner, Folded<V>>, b: map<Owner, Folded<V>>, owners: set<Owner>)
    requires MetasAgree(lens, a, b, owners)
    ensures forall o :: o in owners ==> b[o].meta.authority == a[o].meta.authority
    ensures AuthoritiesOf(b, owners) == AuthoritiesOf(a, owners)
  {
    forall o | o in owners
      ensures b[o].meta.authority == a[o].meta.authority
    {
      assert EraseMeta(lens, b[o].meta).authority == EraseMeta(lens, a[o].meta).authority;
    }
  }

  lemma AgreeLifecycleOwners(lens: Lens, s: RegistryState, t: RegistryState, x: Id)
    requires Agree(lens, s, t)
    ensures LifecycleOwners(t, x) == LifecycleOwners(s, x)
    ensures MetasAgree(lens, Group(s.lifecycles, x), Group(t.lifecycles, x), LifecycleOwners(s, x))
  {
    hide Fenced, IncarnationOf, TableAgrees, SlotsAgree, MetasAgree;
    AgreeIncarnation(lens, s, t, x);
    var i := IncarnationOf(s, x);
    FilterAgrees(lens, s, t, s.lifecycles, t.lifecycles, x, (f: Folded<LifecycleValue>) => f.value.objectIncarnation ==
      i,
                 LifecycleOwners(s, x), LifecycleOwners(t, x));
  }

  lemma AgreeReincarnationOwners(lens: Lens, s: RegistryState, t: RegistryState, x: Id)
    requires Agree(lens, s, t)
    ensures ReincarnationOwners(t, x) == ReincarnationOwners(s, x)
    ensures MetasAgree(lens, Group(s.reincarnations, x), Group(t.reincarnations, x), ReincarnationOwners(s, x))
  {
    hide Fenced, IncarnationOf, TableAgrees, SlotsAgree, MetasAgree;
    AgreeIncarnation(lens, s, t, x);
    var i := IncarnationOf(s, x);
    FilterAgrees(lens, s, t, s.reincarnations, t.reincarnations, x,
      (f: Folded<ReincarnationValue>) => f.value.target == i,
                 ReincarnationOwners(s, x), ReincarnationOwners(t, x));
  }

  lemma AgreeAuthorities(lens: Lens, s: RegistryState, t: RegistryState, x: Id)
    requires Agree(lens, s, t)
    ensures CandidateAuthorities(t, x) == CandidateAuthorities(s, x)
  {
    hide LifecycleOwners, ReincarnationOwners, Agree, IncarnationOf, AuthoritiesOf;
    AgreeLifecycleOwners(lens, s, t, x);
    AgreeReincarnationOwners(lens, s, t, x);
    SameAuthorities(lens, Group(s.lifecycles, x), Group(t.lifecycles, x), LifecycleOwners(s, x));
    SameAuthorities(lens, Group(s.reincarnations, x), Group(t.reincarnations, x), ReincarnationOwners(s, x));
  }

  lemma AgreeAsserted(lens: Lens, s: RegistryState, t: RegistryState, x: Id, action: LifecycleAction)
    requires Agree(lens, s, t) && CandidateAuthorities(s, x) != {} && CandidateAuthorities(t, x) != {}
    ensures Asserted(t, x, action) == Asserted(s, x, action)
  {
    hide LifecycleOwners, Agree, CandidateAuthorities, IncarnationOf;
    AgreeLifecycleOwners(lens, s, t, x);
    AgreeAuthorities(lens, s, t, x);
    SameAuthorities(lens, Group(s.lifecycles, x), Group(t.lifecycles, x), LifecycleOwners(s, x));
  }

  lemma AgreeRestored(lens: Lens, s: RegistryState, t: RegistryState, x: Id)
    requires Agree(lens, s, t) && CandidateAuthorities(s, x) != {} && CandidateAuthorities(t, x) != {}
    ensures Restored(t, x) == Restored(s, x)
  {
    hide ReincarnationOwners, Agree, CandidateAuthorities, IncarnationOf;
    AgreeReincarnationOwners(lens, s, t, x);
    AgreeAuthorities(lens, s, t, x);
    SameAuthorities(lens, Group(s.reincarnations, x), Group(t.reincarnations, x), ReincarnationOwners(s, x));
  }

  lemma AgreeLifecycle(lens: Lens, s: RegistryState, t: RegistryState, x: Id)
    requires Agree(lens, s, t)
    ensures LifecycleOf(t, x) == LifecycleOf(s, x)
  {
    hide Agree, CandidateAuthorities, Asserted, Restored, Combine;
    AgreeAuthorities(lens, s, t, x);
    if CandidateAuthorities(s, x) != {} {
      AgreeRestored(lens, s, t, x);
      AgreeAsserted(lens, s, t, x, Present);
      AgreeAsserted(lens, s, t, x, Quarantined);
      AgreeAsserted(lens, s, t, x, Removed);
      AgreeAsserted(lens, s, t, x, Retired);
    }
  }

  // ---- Winning records ----

  /** The groups agree on these owners, as far as winning is concerned. */
  ghost predicate GroupAgrees<V>(a: map<Owner, Folded<V>>, b: map<Owner, Folded<V>>, owners: set<Owner>)
  {
    && owners <= a.Keys && owners <= b.Keys
    && forall o :: o in owners ==> b[o].value == a[o].value && b[o].meta.authority == a[o].meta.authority
  }

  lemma AgreeWinner<V>(a: map<Owner, Folded<V>>, b: map<Owner, Folded<V>>, owners: set<Owner>)
    requires owners != {} && GroupAgrees(a, b, owners)
    ensures WinningOwner(b, owners) == WinningOwner(a, owners)
    ensures TopOwners(b, owners) == TopOwners(a, owners)
  {
    var x := set o | o in owners :: a[o].meta.authority;
    var y := set o | o in owners :: b[o].meta.authority;
    assert x == y;
    var some :| some in owners;
    assert a[some].meta.authority in x;
    var best := BestOf(x);
    assert (set o | o in owners && a[o].meta.authority == best) == (set o | o in owners && b[o].meta.authority == best);
  }

  lemma AgreeUnfenced<P(!new), V>(lens: Lens, s: RegistryState, t: RegistryState, a: Table<P, Owner, V>,
                                  b: Table<P, Owner, V>, p: P)
    requires t.sources == s.sources && TableAgrees(lens, s, a, b, false)
    ensures Unfenced(t, Group(b, p)) == Unfenced(s, Group(a, p))
    ensures GroupAgrees(Group(a, p), Group(b, p), Unfenced(s, Group(a, p)))
  {
    forall o | !Fenced(s, o)
      ensures o in Group(a, p) <==> o in Group(b, p)
      ensures o in Group(a, p) ==>
              Group(b, p)[o].value == Group(a, p)[o].value
              && Group(b, p)[o].meta.authority == Group(a, p)[o].meta.authority
    {
      assert SameRecord(lens, Cell(a, p, o), Cell(b, p, o));
    }
    assert forall o :: Fenced(t, o) == Fenced(s, o);
  }

  lemma AgreeAll<P(!new), V>(lens: Lens, s: RegistryState, a: Table<P, Owner, V>, b: Table<P, Owner, V>, p: P)
    requires TableAgrees(lens, s, a, b, true)
    ensures Group(b, p).Keys == Group(a, p).Keys
    ensures GroupAgrees(Group(a, p), Group(b, p), Group(a, p).Keys)
  {
    forall o
      ensures o in Group(a, p) <==> o in Group(b, p)
      ensures o in Group(a, p) ==>
              Group(b, p)[o].value == Group(a, p)[o].value
              && Group(b, p)[o].meta.authority == Group(a, p)[o].meta.authority
    {
      assert SameRecord(lens, Cell(a, p, o), Cell(b, p, o));
    }
  }

  lemma AgreeRegistrations(lens: Lens, s: RegistryState, t: RegistryState, x: Id)
    requires Agree(lens, s, t)
    ensures RegistrationOf(t, x) == RegistrationOf(s, x) && EndpointOf(t, x) == EndpointOf(s, x)
  {
    hide WinningOwner, TableAgrees, SlotsAgree;
    AgreeAll(lens, s, s.objects, t.objects, x);
    AgreeAll(lens, s, s.endpoints, t.endpoints, x);
    EmptyGroup(Group(s.objects, x));
    EmptyGroup(Group(t.objects, x));
    EmptyGroup(Group(s.endpoints, x));
    EmptyGroup(Group(t.endpoints, x));
    if Group(s.objects, x).Keys != {} {
      AgreeWinner(Group(s.objects, x), Group(t.objects, x), Group(s.objects, x).Keys);
    }
    if Group(s.endpoints, x).Keys != {} {
      AgreeWinner(Group(s.endpoints, x), Group(t.endpoints, x), Group(s.endpoints, x).Keys);
    }
  }

  lemma EmptyGroup<K, V>(m: map<K, V>)
    ensures m == map[] <==> m.Keys == {}
  {
  }

  lemma AgreeCatalogue(lens: Lens, s: RegistryState, t: RegistryState, port: PortRef, side: SideRef)
    requires Agree(lens, s, t)
    ensures CapabilityOf(t, port) == CapabilityOf(s, port)
    ensures SideDescriptorOf(t, side) == SideDescriptorOf(s, side)
  {
    hide WinningOwner, TableAgrees, SlotsAgree, RegistrationOf, EndpointOf, Unfenced;
    AgreeRegistrations(lens, s, t, side.objectId);
    AgreeRegistrations(lens, s, t, port.endpoint);
    var a, b := Group(s.portCapabilities, port), Group(t.portCapabilities, port);
    AgreeUnfenced(lens, s, t, s.portCapabilities, t.portCapabilities, port);
    var owners := Unfenced(s, a);
    if owners != {} {
      AgreeWinner(a, b, owners);
      assert (set w | w in TopOwners(a, owners) :: a[w].value.maxAttachments) ==
             (set w | w in TopOwners(b, owners) :: b[w].value.maxAttachments);
    }
  }

  // ---- One object side ----

  lemma AgreeSideOwners(lens: Lens, s: RegistryState, t: RegistryState, side: SideRef, policy: Policy, attached: bool)
    requires Agree(lens, s, t) && Admits(lens, policy)
    ensures SideOwners(t, side, policy, attached) == SideOwners(s, side, policy, attached)
    ensures MetasAgree(lens, Group(s.subjects, side), Group(t.subjects, side), SideOwners(s, side, policy, attached))
  {
    hide Fenced, IncarnationOf, TableAgrees, SlotsAgree, MetasAgree;
    AgreeIncarnation(lens, s, t, side.objectId);
    var i := IncarnationOf(s, side.objectId);
    var keep := (f: Folded<SubjectValue>) =>
      Participates(f.meta, policy) && f.value.objectIncarnation == i && f.value.attached == attached;
    FilterAgrees(lens, s, t, s.subjects, t.subjects, side, keep,
                 SideOwners(s, side, policy, attached), SideOwners(t, side, policy, attached));
  }

  lemma AgreeSideAuthorities(lens: Lens, s: RegistryState, t: RegistryState, side: SideRef, policy: Policy,
                             attached: bool)
    requires Agree(lens, s, t) && Admits(lens, policy)
    ensures SideAuthorities(t, side, policy, attached) == SideAuthorities(s, side, policy, attached)
  {
    hide SideOwners, Agree, MetasAgree;
    AgreeSideOwners(lens, s, t, side, policy, attached);
    SameAuthorities(lens, Group(s.subjects, side), Group(t.subjects, side), SideOwners(s, side, policy, attached));
  }

  lemma AgreeTopSides(lens: Lens, s: RegistryState, t: RegistryState, side: SideRef, policy: Policy)
    requires Agree(lens, s, t) && Admits(lens, policy)
    requires SideAuthorities(s, side, policy, true) != {} && SideAuthorities(t, side, policy, true) != {}
    ensures TopSides(t, side, policy) == TopSides(s, side, policy)
    ensures MetasAgree(lens, Group(s.subjects, side), Group(t.subjects, side), TopSides(s, side, policy))
  {
    hide SideOwners, Agree, SideAuthorities, BestOf, EraseMeta, Participates;
    AgreeSideOwners(lens, s, t, side, policy, true);
    AgreeSideAuthorities(lens, s, t, side, policy, true);
    SameAuthorities(lens, Group(s.subjects, side), Group(t.subjects, side), SideOwners(s, side, policy, true));
  }

  lemma AgreeTopPorts(lens: Lens, s: RegistryState, t: RegistryState, side: SideRef, policy: Policy)
    requires Agree(lens, s, t) && Admits(lens, policy)
    requires SideAuthorities(s, side, policy, true) != {} && SideAuthorities(t, side, policy, true) != {}
    ensures TopPorts(t, side, policy) == TopPorts(s, side, policy)
  {
    hide SideOwners, Agree, SideAuthorities, TopSides;
    AgreeTopSides(lens, s, t, side, policy);
    forall o | o in TopSides(s, side, policy)
      ensures t.subjects[side][o].value.port == s.subjects[side][o].value.port
    {
      assert Group(t.subjects, side)[o].value == Group(s.subjects, side)[o].value;
    }
  }

  lemma AgreeTopClaims(lens: Lens, s: RegistryState, t: RegistryState, side: SideRef, policy: Policy)
    requires Agree(lens, s, t) && Admits(lens, policy)
    requires SideAuthorities(s, side, policy, true) != {} && SideAuthorities(t, side, policy, true) != {}
    ensures TopClaimSlots(t, side, policy) == TopClaimSlots(s, side, policy)
    ensures EraseMetas(lens, TopClaims(t, side, policy)) == EraseMetas(lens, TopClaims(s, side, policy))
  {
    hide Agree, TopSides, SideAuthorities;
    AgreeTopSides(lens, s, t, side, policy);
    var owners := Sorted(TopSides(s, side, policy), OwnerRank);
    forall i | 0 <= i < |owners|
      ensures TopClaimSlots(t, side, policy)[i] == TopClaimSlots(s, side, policy)[i]
      ensures EraseMeta(lens, TopClaims(t, side, policy)[i]) == EraseMeta(lens, TopClaims(s, side, policy)[i])
    {
      assert owners[i] in owners;
    }
    assert TopClaimSlots(t, side, policy) == TopClaimSlots(s, side, policy);
  }

  lemma AgreeSideValidation(s: RegistryState, t: RegistryState, side: SideRef, policy: Policy, attached: bool)
    requires Agree(Exact, s, t)
    ensures SideValidation(t, side, policy, attached) == SideValidation(s, side, policy, attached)
  {
    hide Agree, SideOwners;
    AgreeSideOwners(Exact, s, t, side, policy, attached);
  }

  function EraseValidation(lens: Lens, v: Validation): Validation { if lens.Exact? then v else Unvalidated }

  function EraseDerivation(lens: Lens, d: Derivation): Derivation
  {
    d.(validation := EraseValidation(lens, d.validation), top := EraseMetas(lens, d.top))
  }

  lemma WinsAny(s: RegistryState, side: SideRef, policy: Policy)
    ensures AttachedWins(s, side, policy) ==> SideAuthorities(s, side, policy, true) != {}
  {
  }

  lemma AgreeWins(lens: Lens, s: RegistryState, t: RegistryState, side: SideRef, policy: Policy)
    requires Agree(lens, s, t) && Admits(lens, policy)
    ensures AttachedWins(t, side, policy) == AttachedWins(s, side, policy)
    ensures DetachedWins(t, side, policy) == DetachedWins(s, side, policy)
  {
    hide Agree, SideAuthorities, BestOf, Below;
    AgreeSideAuthorities(lens, s, t, side, policy, true);
    AgreeSideAuthorities(lens, s, t, side, policy, false);
  }

  /** One side's own derivation, up to the lens, reads only live records. */
  lemma AgreeSide(lens: Lens, s: RegistryState, t: RegistryState, side: SideRef, policy: Policy)
    requires Agree(lens, s, t) && Admits(lens, policy)
    ensures EraseDerivation(lens, DeriveSide(t, side, policy)) == EraseDerivation(lens, DeriveSide(s, side, policy))
  {
    hide Agree, SideAuthorities, ObjectExists, IncarnationOf, SideValidation, TopPorts, TopClaims, TopClaimSlots;
    hide AttachedWins, DetachedWins, BestOf, Sorted, EraseMetas, CombineValidation, TopSides;
    assert AttachedWins(s, side, policy) ==> SideAuthorities(s, side, policy, true) != {} by {
      WinsAny(s, side, policy);
    }
    AgreeWins(lens, s, t, side, policy);
    AgreeExists(lens, s, t, side.objectId);
    AgreeIncarnation(lens, s, t, side.objectId);
    AgreeSideAuthorities(lens, s, t, side, policy, true);
    AgreeSideAuthorities(lens, s, t, side, policy, false);
    if SideAuthorities(s, side, policy, true) != {} {
      AgreeTopPorts(lens, s, t, side, policy);
      AgreeTopClaims(lens, s, t, side, policy);
    }
    if lens.Exact? {
      AgreeSideValidation(s, t, side, policy, true);
      AgreeSideValidation(s, t, side, policy, false);
    }
  }

  lemma AgreeBooking(lens: Lens, s: RegistryState, t: RegistryState, side: SideRef, policy: Policy)
    requires Agree(lens, s, t) && Admits(lens, policy)
    ensures DoubleBooked(t, side, policy) == DoubleBooked(s, side, policy)
  {
    hide Agree, DeriveSide;
    AgreeSide(lens, s, t, side, policy);
    var d, e := DeriveSide(s, side, policy), DeriveSide(t, side, policy);
    assert EraseDerivation(lens, d).state == EraseDerivation(lens, e).state;
    assert EraseDerivation(lens, d).ports == EraseDerivation(lens, e).ports;
  }

  // ---- One port ----

  ghost predicate KeysAgree(lens: Lens, a: map<SlotKey, Folded<PortValue>>, b: map<SlotKey, Folded<PortValue>>,
                            keys: set<SlotKey>)
  {
    && keys <= a.Keys && keys <= b.Keys
    && forall k :: k in keys ==> b[k].value == a[k].value && EraseMeta(lens, b[k].meta) == EraseMeta(lens, a[k].meta)
  }

  lemma KeysAgreeWithin(lens: Lens, a: map<SlotKey, Folded<PortValue>>, b: map<SlotKey, Folded<PortValue>>,
                        keys: set<SlotKey>, part: set<SlotKey>)
    requires KeysAgree(lens, a, b, keys) && part <= keys
    ensures KeysAgree(lens, a, b, part)
  {
  }

  lemma AgreeSubjectAgrees(lens: Lens, s: RegistryState, t: RegistryState, key: SlotKey, f: Folded<PortValue>,
                           g: Folded<PortValue>, current: int)
    requires Agree(lens, s, t) && !Fenced(s, key.owner)
    requires g.value == f.value && EraseMeta(lens, g.meta) == EraseMeta(lens, f.meta)
    ensures SubjectAgrees(t, key, g, current) == SubjectAgrees(s, key, f, current)
  {
    hide Fenced;
    assert SameRecord(lens, Cell(s.subjects, f.value.subject, key.owner), Cell(t.subjects, f.value.subject, key.owner));
    assert g.meta.generation == EraseMeta(lens, g.meta).generation == EraseMeta(lens, f.meta).generation;
  }

  lemma AgreeSlotLive(lens: Lens, s: RegistryState, t: RegistryState, policy: Policy, port: PortRef, key: SlotKey)
    requires Agree(lens, s, t) && Admits(lens, policy)
    requires Has(s.ports, port, key) && Has(t.ports, port, key)
    requires s.ports[port][key].value == t.ports[port][key].value
    requires EraseMeta(lens, t.ports[port][key].meta) == EraseMeta(lens, s.ports[port][key].meta)
    ensures SlotLive(t, policy, port, key) == SlotLive(s, policy, port, key)
  {
    hide Agree, Fenced, ObjectExists, LifecycleOf, IncarnationOf, SubjectAgrees;
    var f, g := s.ports[port][key], t.ports[port][key];
    var x := f.value.subject.objectId;
    AgreeFenced(lens, s, t);
    AgreeExists(lens, s, t, x);
    AgreeLifecycle(lens, s, t, x);
    AgreeIncarnation(lens, s, t, x);
    if !Fenced(s, key.owner) {
      AgreeSubjectAgrees(lens, s, t, key.(port := port), f, g, IncarnationOf(s, x));
    }
  }

  lemma AgreeSlotCell(lens: Lens, s: RegistryState, t: RegistryState, port: PortRef, key: SlotKey)
    requires Agree(lens, s, t) && !Fenced(s, key.owner)
    ensures Has(t.ports, port, key) <==> Has(s.ports, port, key)
    ensures Has(s.ports, port, key) ==>
              t.ports[port][key].value == s.ports[port][key].value
              && EraseMeta(lens, t.ports[port][key].meta) == EraseMeta(lens, s.ports[port][key].meta)
  {
    hide Fenced, TableAgrees;
    assert SameRecord(lens, Cell(s.ports, port, key), Cell(t.ports, port, key));
  }

  lemma AgreeSlotIn(lens: Lens, s: RegistryState, t: RegistryState, policy: Policy, port: PortRef, key: SlotKey)
    requires Agree(lens, s, t) && Admits(lens, policy)
    ensures key in LiveSlots(t, policy, port) <==> key in LiveSlots(s, policy, port)
    ensures key in LiveSlots(s, policy, port) ==>
              Group(t.ports, port)[key].value == Group(s.ports, port)[key].value
              && EraseMeta(lens, Group(t.ports, port)[key].meta) == EraseMeta(lens, Group(s.ports, port)[key].meta)
  {
    hide Agree;
    hide ObjectExists, LifecycleOf, IncarnationOf, SubjectAgrees, Fenced;
    AgreeFenced(lens, s, t);
    if !Fenced(s, key.owner) {
      AgreeSlotCell(lens, s, t, port, key);
      if Has(s.ports, port, key) {
        AgreeSlotLive(lens, s, t, policy, port, key);
      }
    }
  }

  lemma AgreeLiveSlots(lens: Lens, s: RegistryState, t: RegistryState, policy: Policy, port: PortRef)
    requires Agree(lens, s, t) && Admits(lens, policy)
    ensures LiveSlots(t, policy, port) == LiveSlots(s, policy, port)
    ensures KeysAgree(lens, Group(s.ports, port), Group(t.ports, port), LiveSlots(s, policy, port))
  {
    hide Agree, LiveSlots;
    forall key: SlotKey
      ensures key in LiveSlots(t, policy, port) <==> key in LiveSlots(s, policy, port)
      ensures key in LiveSlots(s, policy, port) ==>
                Group(t.ports, port)[key].value == Group(s.ports, port)[key].value
                && EraseMeta(lens, Group(t.ports, port)[key].meta) == EraseMeta(lens, Group(s.ports, port)[key].meta)
    {
      AgreeSlotIn(lens, s, t, policy, port, key);
    }
  }

  lemma SameSlotAuthority(lens: Lens, s: RegistryState, t: RegistryState, port: PortRef, keys: set<SlotKey>)
    requires KeysAgree(lens, Group(s.ports, port), Group(t.ports, port), keys)
    ensures forall k :: k in keys ==>
            t.ports[port][k].meta.authority == s.ports[port][k].meta.authority
            && t.ports[port][k].value == s.ports[port][k].value
  {
    forall k | k in keys
      ensures t.ports[port][k].meta.authority == s.ports[port][k].meta.authority
              && t.ports[port][k].value == s.ports[port][k].value
    {
      assert EraseMeta(lens, Group(t.ports, port)[k].meta) == EraseMeta(lens, Group(s.ports, port)[k].meta);
    }
  }

  lemma AgreeSlotAuthorities(lens: Lens, s: RegistryState, t: RegistryState, policy: Policy, port: PortRef)
    requires Agree(lens, s, t) && Admits(lens, policy)
    ensures SlotAuthorities(t, policy, port) == SlotAuthorities(s, policy, port)
  {
    hide Agree, LiveSlots;
    AgreeLiveSlots(lens, s, t, policy, port);
    SameSlotAuthority(lens, s, t, port, LiveSlots(s, policy, port));
  }

  lemma AgreeTopSlots(lens: Lens, s: RegistryState, t: RegistryState, policy: Policy, port: PortRef, empty: bool)
    requires Agree(lens, s, t) && Admits(lens, policy)
    requires SlotAuthorities(s, policy, port) != {} && SlotAuthorities(t, policy, port) != {}
    ensures TopSlots(t, policy, port, empty) == TopSlots(s, policy, port, empty)
    ensures TopSlots(s, policy, port, empty) <= LiveSlots(s, policy, port)
  {
    hide Agree, LiveSlots, SlotAuthorities;
    AgreeLiveSlots(lens, s, t, policy, port);
    AgreeSlotAuthorities(lens, s, t, policy, port);
    SameSlotAuthority(lens, s, t, port, LiveSlots(s, policy, port));
  }

  lemma AgreeOverridden(lens: Lens, s: RegistryState, t: RegistryState, policy: Policy, port: PortRef)
    requires Agree(lens, s, t) && Admits(lens, policy)
    requires SlotAuthorities(s, policy, port) != {} && SlotAuthorities(t, policy, port) != {}
    ensures OverriddenSlots(t, policy, port) == OverriddenSlots(s, policy, port)
    ensures OverriddenSlots(s, policy, port) <= LiveSlots(s, policy, port)
  {
    hide Agree, LiveSlots, SlotAuthorities;
    AgreeLiveSlots(lens, s, t, policy, port);
    AgreeSlotAuthorities(lens, s, t, policy, port);
    SameSlotAuthority(lens, s, t, port, LiveSlots(s, policy, port));
  }

  lemma AgreeSubjectsAt(lens: Lens, s: RegistryState, t: RegistryState, policy: Policy, port: PortRef, side: SideRef)
    requires Agree(lens, s, t) && Admits(lens, policy)
    requires SlotAuthorities(s, policy, port) != {} && SlotAuthorities(t, policy, port) != {}
    ensures SubjectsAt(t, policy, port) == SubjectsAt(s, policy, port)
    ensures SlotsOf(t, policy, port, side) == SlotsOf(s, policy, port, side)
  {
    hide Agree, LiveSlots, SlotAuthorities, TopSlots;
    AgreeTopSlots(lens, s, t, policy, port, false);
    AgreeLiveSlots(lens, s, t, policy, port);
    SameSlotAuthority(lens, s, t, port, LiveSlots(s, policy, port));
  }

  // ---- Citations ----

  /** The rank reads nothing the lens erases. */
  ghost predicate Steady(lens: Lens, rank: Attestation -> int)
  {
    forall m :: rank(EraseMeta(lens, m)) == rank(m)
  }

  lemma EraseAppend(lens: Lens, ms: seq<Attestation>, m: Attestation)
    ensures EraseMetas(lens, ms + [m]) == EraseMetas(lens, ms) + [EraseMeta(lens, m)]
  {
  }

  /** Sorting records and erasing from them commute. */
  lemma EraseSort(lens: Lens, ms: seq<Attestation>, rank: Attestation -> int)
    requires Steady(lens, rank)
    ensures EraseMetas(lens, SortBy(ms, rank)) == SortBy(EraseMetas(lens, ms), rank)
  {
    hide SortBy;
    var erase := (m: Attestation) => EraseMeta(lens, m);
    SortByMap(ms, erase, rank);
    assert MapSeq(ms, erase) == EraseMetas(lens, ms);
    assert MapSeq(SortBy(ms, rank), erase) == EraseMetas(lens, SortBy(ms, rank));
  }

  lemma AgreeMetas(lens: Lens, s: RegistryState, t: RegistryState, port: PortRef, keys: seq<SlotKey>)
    requires forall i :: 0 <= i < |keys| ==> keys[i] in Group(s.ports, port) && keys[i] in Group(t.ports, port)
    requires forall i :: 0 <= i < |keys| ==>
               EraseMeta(lens, Group(t.ports, port)[keys[i]].meta) ==
                 EraseMeta(lens, Group(s.ports, port)[keys[i]].meta)
    ensures EraseMetas(lens, SortBy(SlotMetas(t, port, keys), ClaimRank)) ==
            EraseMetas(lens, SortBy(SlotMetas(s, port, keys), ClaimRank))
  {
    hide SortBy;
    assert EraseMetas(lens, SlotMetas(t, port, keys)) == EraseMetas(lens, SlotMetas(s, port, keys));
    EraseSort(lens, SlotMetas(s, port, keys), ClaimRank);
    EraseSort(lens, SlotMetas(t, port, keys), ClaimRank);
  }

  lemma AgreeCite(lens: Lens, s: RegistryState, t: RegistryState, port: PortRef, keys: set<SlotKey>)
    requires KeysAgree(lens, Group(s.ports, port), Group(t.ports, port), keys)
    ensures EraseMetas(lens, Cite(t, port, keys)) == EraseMetas(lens, Cite(s, port, keys))
    ensures lens.Exact? ==> SlotValidation(t, port, keys) == SlotValidation(s, port, keys)
  {
    hide SortBy;
    var ordered := Sorted(keys, SlotRank);
    assert forall i :: 0 <= i < |ordered| ==> ordered[i] in ordered;
    AgreeMetas(lens, s, t, port, ordered);
  }

  lemma AgreeOverriddenList(lens: Lens, s: RegistryState, t: RegistryState, l: Limits, policy: Policy, port: PortRef)
    requires Agree(lens, s, t) && Admits(lens, policy)
    requires SlotAuthorities(s, policy, port) != {} && SlotAuthorities(t, policy, port) != {}
    ensures EraseMetas(lens, OverriddenList(t, l, policy, port)) == EraseMetas(lens, OverriddenList(s, l, policy, port))
  {
    hide SortBy, Agree, LiveSlots, SlotAuthorities, OverriddenSlots, Sorted;
    AgreeLiveSlots(lens, s, t, policy, port);
    AgreeOverridden(lens, s, t, policy, port);
    var keys := Sorted(OverriddenSlots(s, policy, port), SlotRank);
    var kept := if |keys| > l.maxOverridden then keys[..l.maxOverridden] else keys;
    assert forall i :: 0 <= i < |kept| ==> kept[i] in keys;
    AgreeMetas(lens, s, t, port, kept);
  }

  // ---- Views ----

  function EraseEdge(lens: Lens, e: Edge): Edge
  {
    e.(validation := EraseValidation(lens, e.validation), claims := EraseMetas(lens, e.claims),
      overridden := EraseMetas(lens, e.overridden))
  }

  function EraseEdges(lens: Lens, es: seq<Edge>): (r: seq<Edge>)
    ensures |r| == |es|
  {
    seq(|es|, i requires 0 <= i < |es| => EraseEdge(lens, es[i]))
  }

  function EraseNote(lens: Lens, n: Note): Note { n.(claims := EraseMetas(lens, n.claims)) }

  function EraseNotes(lens: Lens, ns: seq<Note>): (r: seq<Note>)
    ensures |r| == |ns|
  {
    seq(|ns|, i requires 0 <= i < |ns| => EraseNote(lens, ns[i]))
  }

  function ErasePort(lens: Lens, v: PortView): PortView
  {
    v.(validation := EraseValidation(lens, v.validation), edges := EraseEdges(lens, v.edges),
       conflicts := EraseNotes(lens, v.conflicts), emptinessClaims := EraseMetas(lens, v.emptinessClaims))
  }

  lemma EraseNotesConcat(lens: Lens, a: seq<Note>, b: seq<Note>)
    ensures EraseNotes(lens, a + b) == EraseNotes(lens, a) + EraseNotes(lens, b)
  {
  }

  lemma AgreeBookings(lens: Lens, s: RegistryState, t: RegistryState, policy: Policy, port: PortRef)
    requires Agree(lens, s, t) && Admits(lens, policy)
    requires SlotAuthorities(s, policy, port) != {} && SlotAuthorities(t, policy, port) != {}
    ensures AnyDoubleBooked(t, policy, port) == AnyDoubleBooked(s, policy, port)
  {
    hide Agree, SlotAuthorities, SubjectsAt, DoubleBooked;
    forall side: SideRef
      ensures SubjectsAt(t, policy, port) == SubjectsAt(s, policy, port)
      ensures DoubleBooked(t, side, policy) == DoubleBooked(s, side, policy)
    {
      AgreeSubjectsAt(lens, s, t, policy, port, side);
      AgreeBooking(lens, s, t, side, policy);
    }
  }

  lemma AgreeState(lens: Lens, s: RegistryState, t: RegistryState, policy: Policy, port: PortRef)
    requires Agree(lens, s, t) && Admits(lens, policy)
    ensures StateOf(t, policy, port) == StateOf(s, policy, port)
  {
    hide Agree, SlotAuthorities, SubjectsAt, AnyDoubleBooked, CapabilityOf, TopSlots;
    AgreeSlotAuthorities(lens, s, t, policy, port);
    if SlotAuthorities(s, policy, port) != {} {
      AgreeTopSlots(lens, s, t, policy, port, true);
      AgreeTopSlots(lens, s, t, policy, port, false);
      AgreeSubjectsAt(lens, s, t, policy, port, SideRef(0, 0));
      AgreeBookings(lens, s, t, policy, port);
      AgreeCatalogue(lens, s, t, port, SideRef(0, 0));
    }
  }

  lemma AgreeSlotsOf(lens: Lens, s: RegistryState, t: RegistryState, policy: Policy, port: PortRef, side: SideRef)
    requires Agree(lens, s, t) && Admits(lens, policy)
    requires SlotAuthorities(s, policy, port) != {} && SlotAuthorities(t, policy, port) != {}
    ensures SlotsOf(t, policy, port, side) == SlotsOf(s, policy, port, side)
    ensures KeysAgree(lens, Group(s.ports, port), Group(t.ports, port), SlotsOf(s, policy, port, side))
  {
    hide Agree, LiveSlots, SlotAuthorities, TopSlots, SlotsOf, KeysAgree;
    AgreeLiveSlots(lens, s, t, policy, port);
    AgreeTopSlots(lens, s, t, policy, port, false);
    AgreeSubjectsAt(lens, s, t, policy, port, side);
    KeysAgreeWithin(lens, Group(s.ports, port), Group(t.ports, port), LiveSlots(s, policy, port),
      SlotsOf(s, policy, port, side));
  }

  lemma AgreeEdge(lens: Lens, s: RegistryState, t: RegistryState, l: Limits, policy: Policy, port: PortRef,
                  side: SideRef)
    requires Agree(lens, s, t) && Admits(lens, policy)
    requires SlotAuthorities(s, policy, port) != {} && SlotAuthorities(t, policy, port) != {}
    requires side in SubjectsAt(s, policy, port) && side in SubjectsAt(t, policy, port)
    ensures EraseEdge(lens, EdgeOf(t, l, policy, port, side)) == EraseEdge(lens, EdgeOf(s, l, policy, port, side))
  {
    hide Agree, SlotAuthorities, SubjectsAt, AnyDoubleBooked, CapabilityOf, TopSlots, SlotsOf, StateOf,
         SideDescriptorOf;
    hide Cite, OverriddenList, OverriddenSlots, SlotValidation, EraseMetas, ConnectorCompatible, MediaCompatible,
         LastSlot;
    AgreeSlotAuthorities(lens, s, t, policy, port);
    AgreeState(lens, s, t, policy, port);
    AgreeSlotsOf(lens, s, t, policy, port, side);
    AgreeCatalogue(lens, s, t, port, side);
    AgreeCite(lens, s, t, port, SlotsOf(s, policy, port, side));
    AgreeOverridden(lens, s, t, policy, port);
    AgreeOverriddenList(lens, s, t, l, policy, port);
    var last := LastSlot(SlotsOf(s, policy, port, side));
    assert Group(t.ports, port)[last].value == Group(s.ports, port)[last].value;
  }

  lemma AgreeEdges(lens: Lens, s: RegistryState, t: RegistryState, l: Limits, policy: Policy, port: PortRef,
                   sides: seq<SideRef>)
    requires Agree(lens, s, t) && Admits(lens, policy)
    requires SlotAuthorities(s, policy, port) != {} && SlotAuthorities(t, policy, port) != {}
    requires forall side :: side in sides ==> side in SubjectsAt(s, policy, port) && side in SubjectsAt(t, policy, port)
    ensures EraseEdges(lens, EdgesOf(t, l, policy, port, sides)) == EraseEdges(lens, EdgesOf(s, l, policy, port, sides))
  {
    hide Agree, SlotAuthorities, SubjectsAt, EdgeOf, EraseEdge;
    forall i | 0 <= i < |sides|
      ensures EraseEdge(lens, EdgesOf(t, l, policy, port, sides)[i]) ==
              EraseEdge(lens, EdgesOf(s, l, policy, port, sides)[i])
    {
      AgreeEdge(lens, s, t, l, policy, port, sides[i]);
    }
  }

  /** Edge notes are read off the edges. */
  lemma {:induction false} AgreeEdgeNotes(lens: Lens, a: seq<Edge>, b: seq<Edge>)
    requires EraseEdges(lens, a) == EraseEdges(lens, b)
    ensures EraseNotes(lens, EdgeNotes(a)) == EraseNotes(lens, EdgeNotes(b))
  {
    if a != [] {
      assert b != [] by { assert |EraseEdges(lens, a)| == |EraseEdges(lens, b)|; }
      assert EraseEdges(lens, a)[1..] == EraseEdges(lens, a[1..]);
      assert EraseEdges(lens, b)[1..] == EraseEdges(lens, b[1..]);
      AgreeEdgeNotes(lens, a[1..], b[1..]);
      HeadNotesErased(lens, a);
      HeadNotesErased(lens, b);
      assert EraseEdges(lens, a)[0] == EraseEdges(lens, b)[0];
      HeadNotesAgree(lens, a[0], b[0]);
    } else {
      assert |EraseEdges(lens, a)| == |EraseEdges(lens, b)|;
      assert b == [];
    }
  }

  function HeadNotes(e: Edge): seq<Note>
  {
    (if e.connectorCompatible then [] else [Note(IncompatibleConnector, Some(e.subject), Some(e.port), e.claims)]) +
    (if e.mediaCompatible then [] else [Note(IncompatibleMedia, Some(e.subject), Some(e.port), e.claims)])
  }

  lemma HeadNotesErased(lens: Lens, a: seq<Edge>)
    requires a != []
    ensures EraseNotes(lens, EdgeNotes(a)) == EraseNotes(lens, HeadNotes(a[0])) + EraseNotes(lens, EdgeNotes(a[1..]))
  {
    assert EdgeNotes(a) == HeadNotes(a[0]) + EdgeNotes(a[1..]);
    EraseNotesConcat(lens, HeadNotes(a[0]), EdgeNotes(a[1..]));
  }

  lemma HeadNotesAgree(lens: Lens, a: Edge, b: Edge)
    requires EraseEdge(lens, a) == EraseEdge(lens, b)
    ensures EraseNotes(lens, HeadNotes(a)) == EraseNotes(lens, HeadNotes(b))
  {
    assert a.connectorCompatible == b.connectorCompatible && a.mediaCompatible == b.mediaCompatible;
    assert a.subject == b.subject && a.port == b.port && EraseMetas(lens, a.claims) == EraseMetas(lens, b.claims);
  }

  lemma {:induction false} AgreeBookingNotes(lens: Lens, s: RegistryState, t: RegistryState, policy: Policy,
                                             port: PortRef, sides: seq<SideRef>)
    requires Agree(lens, s, t) && Admits(lens, policy)
    ensures EraseNotes(lens, BookingNotes(t, policy, port, sides)) ==
            EraseNotes(lens, BookingNotes(s, policy, port, sides))
  {
    hide Agree, DoubleBooked, DeriveSide, SortBy;
    if sides != [] {
      AgreeBooking(lens, s, t, sides[0], policy);
      AgreeSide(lens, s, t, sides[0], policy);
      var d, e := DeriveSide(s, sides[0], policy), DeriveSide(t, sides[0], policy);
      assert EraseDerivation(lens, d).top == EraseDerivation(lens, e).top;
      EraseSort(lens, d.top, ClaimRank);
      EraseSort(lens, e.top, ClaimRank);
      AgreeBookingNotes(lens, s, t, policy, port, sides[1..]);
      EraseNotesConcat(lens, HeadBooking(s, policy, port, sides[0]), BookingNotes(s, policy, port, sides[1..]));
      EraseNotesConcat(lens, HeadBooking(t, policy, port, sides[0]), BookingNotes(t, policy, port, sides[1..]));
      assert EraseNotes(lens, HeadBooking(t, policy, port, sides[0])) ==
             EraseNotes(lens, HeadBooking(s, policy, port, sides[0]));
    }
  }

  ghost function HeadBooking(s: RegistryState, policy: Policy, port: PortRef, side: SideRef): seq<Note>
  {
    if DoubleBooked(s, side, policy)
    then [Note(ObjectSideDoubleBooked, Some(side), Some(port), SortBy(DeriveSide(s, side, policy).top, ClaimRank))]
      else []
  }

  lemma AgreeTopKeys(lens: Lens, s: RegistryState, t: RegistryState, policy: Policy, port: PortRef)
    requires Agree(lens, s, t) && Admits(lens, policy)
    requires SlotAuthorities(s, policy, port) != {} && SlotAuthorities(t, policy, port) != {}
    ensures TopSlots(t, policy, port, false) == TopSlots(s, policy, port, false)
    ensures TopSlots(t, policy, port, true) == TopSlots(s, policy, port, true)
    ensures KeysAgree(lens, Group(s.ports, port), Group(t.ports, port), TopSlots(s, policy, port, false))
    ensures KeysAgree(lens, Group(s.ports, port), Group(t.ports, port), TopSlots(s, policy, port, true))
    ensures KeysAgree(lens, Group(s.ports, port), Group(t.ports, port), TopSlots(s, policy, port, false) +
            TopSlots(s, policy, port, true))
  {
    hide Agree, LiveSlots, SlotAuthorities, TopSlots, KeysAgree;
    AgreeLiveSlots(lens, s, t, policy, port);
    AgreeTopSlots(lens, s, t, policy, port, false);
    AgreeTopSlots(lens, s, t, policy, port, true);
    var a, b, live := Group(s.ports, port), Group(t.ports, port), LiveSlots(s, policy, port);
    KeysAgreeWithin(lens, a, b, live, TopSlots(s, policy, port, false));
    KeysAgreeWithin(lens, a, b, live, TopSlots(s, policy, port, true));
    KeysAgreeWithin(lens, a, b, live, TopSlots(s, policy, port, false) + TopSlots(s, policy, port, true));
  }

  lemma SingleNoteAgrees(lens: Lens, m: Note, n: Note)
    requires EraseNote(lens, m) == EraseNote(lens, n)
    ensures EraseNotes(lens, [m]) == EraseNotes(lens, [n])
  {
  }

  lemma AgreeConflictNotes(lens: Lens, s: RegistryState, t: RegistryState, policy: Policy, port: PortRef)
    requires Agree(lens, s, t) && Admits(lens, policy)
    requires SlotAuthorities(s, policy, port) != {} && SlotAuthorities(t, policy, port) != {}
    ensures EraseNotes(lens, ConflictNotes(t, policy, port)) == EraseNotes(lens, ConflictNotes(s, policy, port))
  {
    hide Agree, SlotAuthorities, TopSlots, SubjectsAt, CapabilityOf, BookingNotes, EraseNotes, EraseMetas, Cite,
         KeysAgree, Sorted;
    AgreeTopKeys(lens, s, t, policy, port);
    AgreeSubjectsAt(lens, s, t, policy, port, SideRef(0, 0));
    AgreeCatalogue(lens, s, t, port, SideRef(0, 0));
    var occupied, vacant := TopSlots(s, policy, port, false), TopSlots(s, policy, port, true);
    AgreeCite(lens, s, t, port, occupied);
    AgreeCite(lens, s, t, port, occupied + vacant);
    var sides := Sorted(SubjectsAt(s, policy, port), SideRank);
    AgreeBookingNotes(lens, s, t, policy, port, sides);
    var many := |SubjectsAt(s, policy, port)| > CapabilityOf(s, port).maxAttachments;
    var a := if many then [Note(TooManyAttachments, None, Some(port), Cite(s, port, occupied))] else [];
    var b := if vacant != {} then [Note(EmptyAndOccupied, None, Some(port), Cite(s, port, occupied + vacant))] else [];
    var c := if many then [Note(TooManyAttachments, None, Some(port), Cite(t, port, occupied))] else [];
    var d := if vacant != {} then [Note(EmptyAndOccupied, None, Some(port), Cite(t, port, occupied + vacant))] else [];
    if many { SingleNoteAgrees(lens, a[0], c[0]); }
    if vacant != {} { SingleNoteAgrees(lens, b[0], d[0]); }
    EraseNotesConcat(lens, a, b);
    EraseNotesConcat(lens, c, d);
    EraseNotesConcat(lens, a + b, BookingNotes(s, policy, port, sides));
    EraseNotesConcat(lens, c + d, BookingNotes(t, policy, port, sides));
  }

  /** The view of a port, up to the lens, reads only live records. */
  lemma AgreePort(lens: Lens, s: RegistryState, t: RegistryState, l: Limits, policy: Policy, port: PortRef)
    requires Agree(lens, s, t) && Admits(lens, policy)
    ensures ErasePort(lens, DerivePort(t, l, policy, port)) == ErasePort(lens, DerivePort(s, l, policy, port))
  {
    hide Agree, SlotAuthorities, TopSlots, SubjectsAt, CapabilityOf, EraseNotes, EraseMetas, EraseEdges, Cite,
         KeysAgree, Sorted;
    hide SlotValidation, StateOf, EdgesOf, EdgeNotes, ConflictNotes;
    AgreeSlotAuthorities(lens, s, t, policy, port);
    AgreeCatalogue(lens, s, t, port, SideRef(0, 0));
    if SlotAuthorities(s, policy, port) != {} {
      AgreeTopKeys(lens, s, t, policy, port);
      AgreeSubjectsAt(lens, s, t, policy, port, SideRef(0, 0));
      AgreeState(lens, s, t, policy, port);
      var occupied, vacant := TopSlots(s, policy, port, false), TopSlots(s, policy, port, true);
      AgreeCite(lens, s, t, port, vacant);
      AgreeCite(lens, s, t, port, occupied + vacant);
      if occupied != {} {
        var sides := Sorted(SubjectsAt(s, policy, port), SideRank);
        var a, b := EdgesOf(s, l, policy, port, sides), EdgesOf(t, l, policy, port, sides);
        AgreeEdges(lens, s, t, l, policy, port, sides);
        AgreeEdgeNotes(lens, a, b);
        AgreeConflictNotes(lens, s, t, policy, port);
        EraseNotesConcat(lens, EdgeNotes(a), ConflictNotes(s, policy, port));
        EraseNotesConcat(lens, EdgeNotes(b), ConflictNotes(t, policy, port));
      }
    }
  }

  // ---- Objects ----

  function EraseSide(lens: Lens, v: SideView): SideView
  {
    v.(validation := EraseValidation(lens, v.validation), edges := EraseEdges(lens, v.edges),
      conflicts := EraseNotes(lens, v.conflicts))
  }

  function EraseSides(lens: Lens, vs: seq<SideView>): (r: seq<SideView>)
    ensures |r| == |vs|
  {
    seq(|vs|, i requires 0 <= i < |vs| => EraseSide(lens, vs[i]))
  }

  function EraseObject(lens: Lens, v: Option<ObjectView>): Option<ObjectView>
  {
    if v.None? then v
    else Some(v.value.(sides := EraseSides(lens, v.value.sides), conflicts := EraseNotes(lens, v.value.conflicts),
                       validation := EraseValidation(lens, v.value.validation)))
  }

  lemma AgreeSideEdge(lens: Lens, s: RegistryState, t: RegistryState, side: SideRef, d: Derivation, e: Derivation,
                      i: nat)
    requires Agree(lens, s, t) && EraseDerivation(lens, e) == EraseDerivation(lens, d)
    requires i < |d.ports| && i < |e.ports|
    ensures EraseEdge(lens, SideEdge(t, side, e, i)) == EraseEdge(lens, SideEdge(s, side, d, i))
  {
    hide Agree, CapabilityOf, SideDescriptorOf, SortBy, EraseMetas, ConnectorCompatible, MediaCompatible;
    assert e.ports == d.ports && e.slots == d.slots && e.state == d.state && e.authority == d.authority
           && e.incarnation == d.incarnation;
    AgreeCatalogue(lens, s, t, d.ports[i], side);
    EraseSort(lens, d.top, ClaimRank);
    EraseSort(lens, e.top, ClaimRank);
    assert EraseMetas(lens, d.top) == EraseMetas(lens, e.top);
    assert EraseMetas(lens, []) == [];
  }

  lemma AgreeSideView(lens: Lens, s: RegistryState, t: RegistryState, side: SideRef, policy: Policy)
    requires Agree(lens, s, t) && Admits(lens, policy)
    ensures EraseSide(lens, DeriveSideView(t, side, policy)) == EraseSide(lens, DeriveSideView(s, side, policy))
  {
    hide Agree, CapabilityOf, SideDescriptorOf, SortBy, DeriveSide, SideEdge, EraseEdge;
    var d, e := DeriveSide(s, side, policy), DeriveSide(t, side, policy);
    AgreeSide(lens, s, t, side, policy);
    AgreeCatalogue(lens, s, t, PortRef(0, 0), side);
    assert EraseDerivation(lens, e).ports == EraseDerivation(lens, d).ports
           && EraseDerivation(lens, e).state == EraseDerivation(lens, d).state;
    forall i | 0 <= i < |d.ports|
      ensures EraseEdge(lens, SideEdges(t, side, e)[i]) == EraseEdge(lens, SideEdges(s, side, d)[i])
    {
      AgreeSideEdge(lens, s, t, side, d, e, i);
    }
    assert EraseEdges(lens, SideEdges(t, side, e)) == EraseEdges(lens, SideEdges(s, side, d));
    EraseSort(lens, d.top, ClaimRank);
    EraseSort(lens, e.top, ClaimRank);
    assert EraseMetas(lens, d.top) == EraseMetas(lens, e.top);
  }

  lemma AgreeSideViews(lens: Lens, s: RegistryState, t: RegistryState, x: Id, policy: Policy, n: nat)
    requires Agree(lens, s, t) && Admits(lens, policy) && n < TWO_32
    ensures EraseSides(lens, SideViews(t, x, policy, n)) == EraseSides(lens, SideViews(s, x, policy, n))
  {
    hide Agree, DeriveSideView, EraseSide;
    forall i | 0 <= i < n
      ensures EraseSide(lens, SideViews(t, x, policy, n)[i]) == EraseSide(lens, SideViews(s, x, policy, n)[i])
    {
      AgreeSideView(lens, s, t, SideRef(x, i), policy);
    }
  }

  lemma AgreeSomeSide(lens: Lens, s: RegistryState, t: RegistryState, x: Id, policy: Policy, n: nat,
                      wanted: set<PortState>)
    requires Agree(lens, s, t) && Admits(lens, policy) && n < TWO_32
    ensures SomeSide(t, x, policy, n, wanted) == SomeSide(s, x, policy, n, wanted)
    ensures lens.Exact? ==> SidesValidation(t, x, policy, n) == SidesValidation(s, x, policy, n)
  {
    hide Agree, DeriveSide;
    forall i | 0 <= i < n
      ensures DeriveSide(t, SideRef(x, i), policy).state == DeriveSide(s, SideRef(x, i), policy).state
      ensures lens.Exact? ==>
              DeriveSide(t, SideRef(x, i), policy).validation == DeriveSide(s, SideRef(x, i), policy).validation
      ensures DeriveSide(t, SideRef(x, i), policy).hasRecords == DeriveSide(s, SideRef(x, i), policy).hasRecords
    {
      AgreeSide(lens, s, t, SideRef(x, i), policy);
      var d, e := DeriveSide(s, SideRef(x, i), policy), DeriveSide(t, SideRef(x, i), policy);
      assert EraseDerivation(lens, d).state == EraseDerivation(lens, e).state;
      assert EraseDerivation(lens, d).validation == EraseDerivation(lens, e).validation;
      assert EraseDerivation(lens, d).hasRecords == EraseDerivation(lens, e).hasRecords;
    }
  }

  lemma AgreeSerial(lens: Lens, s: RegistryState, t: RegistryState, x: Id, registered: Text)
    requires Agree(lens, s, t)
    ensures SerialOf(t, x, registered) == SerialOf(s, x, registered)
  {
    hide Agree, ReincarnationOwners, WinningOwner;
    AgreeReincarnationOwners(lens, s, t, x);
    var owners := ReincarnationOwners(s, x);
    var a, b := Group(s.reincarnations, x), Group(t.reincarnations, x);
    if owners != {} {
      SameAuthorities(lens, a, b, owners);
      AgreeWinner(a, b, owners);
    }
  }

  lemma DisagreeAgrees<V>(a: map<Owner, Folded<V>>, b: map<Owner, Folded<V>>, owners: set<Owner>)
    requires owners != {} && GroupAgrees(a, b, owners)
    ensures Disagree(b, owners) == Disagree(a, owners)
  {
    AgreeWinner(a, b, owners);
  }

  lemma AgreeObjectCapability(lens: Lens, s: RegistryState, t: RegistryState, x: Id, registered: NominalCapability)
    requires Agree(lens, s, t)
    ensures ObjectCapabilityOf(t, x, registered) == ObjectCapabilityOf(s, x, registered)
    ensures CapabilityNotes(t, x) == CapabilityNotes(s, x)
  {
    hide TableAgrees, SlotsAgree, WinningOwner, Disagree, Unfenced;
    AgreeUnfenced(lens, s, t, s.objectCapabilities, t.objectCapabilities, x);
    AgreeAll(lens, s, s.objects, t.objects, x);
    var a, b := Group(s.objectCapabilities, x), Group(t.objectCapabilities, x);
    var owners := Unfenced(s, a);
    if owners != {} {
      AgreeWinner(a, b, owners);
      DisagreeAgrees(a, b, owners);
    }
    var c, d := Group(s.objects, x), Group(t.objects, x);
    if c.Keys != {} { DisagreeAgrees(c, d, c.Keys); }
  }

  lemma AgreeTopMetas<V>(lens: Lens, a: map<Owner, Folded<V>>, b: map<Owner, Folded<V>>, owners: set<Owner>,
                         best: Authority)
    requires MetasAgree(lens, a, b, owners)
    ensures EraseMetas(lens, TopMetas(b, owners, best)) == EraseMetas(lens, TopMetas(a, owners, best))
  {
    SameAuthorities(lens, a, b, owners);
    assert (set o | o in owners && a[o].meta.authority == best) == (set o | o in owners && b[o].meta.authority == best);
    var top := Sorted((set o | o in owners && a[o].meta.authority == best), OwnerRank);
    forall i | 0 <= i < |top|
      ensures EraseMeta(lens, TopMetas(b, owners, best)[i]) == EraseMeta(lens, TopMetas(a, owners, best)[i])
    {
      assert top[i] in top;
    }
  }

  lemma EraseConcat(lens: Lens, a: seq<Attestation>, b: seq<Attestation>)
    ensures EraseMetas(lens, a + b) == EraseMetas(lens, a) + EraseMetas(lens, b)
  {
  }

  lemma AgreeLifecycleNotes(lens: Lens, s: RegistryState, t: RegistryState, x: Id)
    requires Agree(lens, s, t)
    ensures EraseNotes(lens, LifecycleNotes(t, x)) == EraseNotes(lens, LifecycleNotes(s, x))
  {
    hide Agree, LifecycleOf, CandidateAuthorities, SortBy, LifecycleCitations, EraseMetas, EraseNotes;
    AgreeLifecycle(lens, s, t, x);
    AgreeAuthorities(lens, s, t, x);
    if CandidateAuthorities(s, x) != {} && LifecycleOf(s, x).conflicting {
      AgreeCitations(lens, s, t, x);
      var a, b := LifecycleCitations(s, x), LifecycleCitations(t, x);
      EraseSort(lens, a, ClaimRank);
      EraseSort(lens, b, ClaimRank);
      SingleNoteAgrees(lens, LifecycleNotes(s, x)[0], LifecycleNotes(t, x)[0]);
    }
  }

  lemma AgreeCitations(lens: Lens, s: RegistryState, t: RegistryState, x: Id)
    requires Agree(lens, s, t) && CandidateAuthorities(s, x) != {} && CandidateAuthorities(t, x) != {}
    ensures EraseMetas(lens, LifecycleCitations(t, x)) == EraseMetas(lens, LifecycleCitations(s, x))
  {
    hide Agree, CandidateAuthorities, LifecycleOwners, ReincarnationOwners, MetasAgree, EraseMetas, TopMetas;
    AgreeAuthorities(lens, s, t, x);
    AgreeLifecycleOwners(lens, s, t, x);
    AgreeReincarnationOwners(lens, s, t, x);
    var best := BestLifecycleAuthority(s, x);
    var a, b := Group(s.lifecycles, x), Group(s.reincarnations, x);
    var c, d := Group(t.lifecycles, x), Group(t.reincarnations, x);
    assert MetasAgree(lens, a, c, LifecycleOwners(s, x)) && MetasAgree(lens, b, d, ReincarnationOwners(s, x));
    AgreeTopMetas(lens, a, c, LifecycleOwners(s, x), best);
    AgreeTopMetas(lens, b, d, ReincarnationOwners(s, x), best);
    EraseConcat(lens, TopMetas(a, LifecycleOwners(s, x), best), TopMetas(b, ReincarnationOwners(s, x), best));
    EraseConcat(lens, TopMetas(c, LifecycleOwners(s, x), best), TopMetas(d, ReincarnationOwners(s, x), best));
  }

  /** The view of an object, up to the lens, reads only live records and registrations. */
  lemma AgreeObject(lens: Lens, s: RegistryState, t: RegistryState, policy: Policy, x: Id)
    requires Agree(lens, s, t) && Admits(lens, policy)
    ensures EraseObject(lens, DeriveObject(t, policy, x)) == EraseObject(lens, DeriveObject(s, policy, x))
  {
    hide Agree, RegistrationOf, SerialOf, IncarnationOf, LifecycleOf, SomeSide, ObjectCapabilityOf, SideViews,
         CapabilityNotes;
    hide LifecycleNotes, SidesValidation, EraseSides, EraseNotes, LifecycleStateOf;
    AgreeRegistrations(lens, s, t, x);
    var r := RegistrationOf(s, x);
    if r.Some? && |r.value.sides| < TWO_32 {
      var n := |r.value.sides|;
      AgreeSerial(lens, s, t, x, r.value.serial);
      AgreeIncarnation(lens, s, t, x);
      AgreeLifecycle(lens, s, t, x);
      AgreeSomeSide(lens, s, t, x, policy, n, {Attached, Conflicting});
      AgreeSomeSide(lens, s, t, x, policy, n, {Empty});
      AgreeObjectCapability(lens, s, t, x, r.value.capability);
      AgreeSideViews(lens, s, t, x, policy, n);
      AgreeLifecycleNotes(lens, s, t, x);
      EraseNotesConcat(lens, CapabilityNotes(s, x), LifecycleNotes(s, x));
      EraseNotesConcat(lens, CapabilityNotes(t, x), LifecycleNotes(t, x));
    }
  }
}
