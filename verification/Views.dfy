// What the catalogue lookups and the view of an object answer, from the records.

module Views {
  import opened Words
  import opened Evidence
  import opened Ordering
  import opened State
  import opened Lifecycle
  import opened Derive
  import opened Objects
  import opened Passes
  import opened CatalogueLoops
  import opened Verdicts

  // ---- Which record prevails ----

  /** Of the given owners' records, that of o has the highest authority and, among equals, the lowest owner. */
  ghost predicate Foremost<V>(group: map<Owner, Folded<V>>, owners: set<Owner>, o: Owner)
    requires owners <= group.Keys
  {
    o in owners && forall p :: p in owners ==> Prevails(group, o, p)
  }

  lemma WinnerExactly<V>(group: map<Owner, Folded<V>>, owners: set<Owner>, o: Owner)
    requires owners != {} && owners <= group.Keys
    ensures WinningOwner(group, owners) == o <==> Foremost(group, owners, o)
  {
    hide AuthorityRank, OwnerRank;
    if Foremost(group, owners, o) { WinnerIs(group, owners, o); }
    var w := WinningOwner(group, owners);
    WinnerForemost(group, owners);
  }

  lemma WinnerForemost<V>(group: map<Owner, Folded<V>>, owners: set<Owner>)
    requires owners != {} && owners <= group.Keys
    ensures Foremost(group, owners, WinningOwner(group, owners))
  {
    hide AuthorityRank, OwnerRank;
    var authorities := set o | o in owners :: group[o].meta.authority;
    var some :| some in owners;
    assert group[some].meta.authority in authorities;
    var best := BestOf(authorities);
    var top := set o | o in owners && group[o].meta.authority == best;
    var witness' :| witness' in owners && group[witness'].meta.authority == best;
    assert witness' in top;
    var w := WinningOwner(group, owners);
    assert w in top && forall p :: p in top ==> OwnerRank(w) <= OwnerRank(p);
    forall p | p in owners
      ensures Prevails(group, w, p)
    {
      var a := group[p].meta.authority;
      assert a in authorities;
      if AuthorityRank(a) == AuthorityRank(best) { AuthorityRankInjective(a, best); assert p in top; }
    }
  }

  /** The registration of an object is that of the foremost owner, fenced or not. */
  lemma RegistrationExactly(s: RegistryState, x: Id, o: Owner)
    ensures RegistrationOf(s, x).None? <==> Group(s.objects, x) == map[]
    ensures o in Group(s.objects, x) && Foremost(Group(s.objects, x), Group(s.objects, x).Keys, o) ==>
              RegistrationOf(s, x) == Some(s.objects[x][o].value)
  {
    hide WinningOwner, Prevails;
    var group := Group(s.objects, x);
    if group != map[] {
      var w :| w in group;
      WinnerExactly(group, group.Keys, o);
    }
  }

  /** So is that of an endpoint. */
  lemma EndpointExactly(s: RegistryState, x: Id, o: Owner)
    ensures EndpointOf(s, x).None? <==> Group(s.endpoints, x) == map[]
    ensures o in Group(s.endpoints, x) && Foremost(Group(s.endpoints, x), Group(s.endpoints, x).Keys, o) ==>
              EndpointOf(s, x) == Some(s.endpoints[x][o].value)
  {
    hide WinningOwner, Prevails;
    var group := Group(s.endpoints, x);
    if group != map[] {
      var w :| w in group;
      WinnerExactly(group, group.Keys, o);
    }
  }

  /** The owner has published a capability for the port and counts. */
  predicate Publishes(s: RegistryState, port: PortRef, o: Owner)
  {
    Has(s.portCapabilities, port, o) && !Fenced(s, o)
  }

  /**
    * The capability of a port is that of the foremost owner who publishes one, with the smallest count any
    * publisher of that authority admits, and at least one; when nobody does, it is the endpoint's default,
    * and without an endpoint one attachment of any kind.
    */
  lemma CapabilityExactly(s: RegistryState, port: PortRef, o: Owner, p: Owner)
    ensures var c, group := CapabilityOf(s, port), Group(s.portCapabilities, port);
            && (Publishes(s, port, o) && Foremost(group, Unfenced(s, group), o) ==>
                  && c.connector == group[o].value.connector && c.media == group[o].value.media
                  && c.lanes == group[o].value.lanes && c.maxAttachments >= 1
                  && (Publishes(s, port, p) && group[p].meta.authority == group[o].meta.authority ==>
                        c.maxAttachments <= group[p].value.maxAttachments || group[p].value.maxAttachments == 0)
                  && (exists q :: Publishes(s, port, q) && group[q].meta.authority == group[o].meta.authority
                        && (c.maxAttachments == group[q].value.maxAttachments
                            || (group[q].value.maxAttachments == 0 && c.maxAttachments == 1))))
            && ((forall q :: !Publishes(s, port, q)) ==>
                  c == match EndpointOf(s, port.endpoint)
                       case Some(d) => d.defaultCapability
                       case None => PortCapability(1, CONNECTOR_UNKNOWN, MEDIA_UNKNOWN, 0))
  {
    hide WinningOwner, Prevails, EndpointOf, AuthorityRank;
    var group := Group(s.portCapabilities, port);
    var owners := Unfenced(s, group);
    assert forall q :: q in owners <==> Publishes(s, port, q);
    if owners != {} { PublishedExactly(s, port, o, p); }
  }

  lemma PublishedExactly(s: RegistryState, port: PortRef, o: Owner, p: Owner)
    requires Unfenced(s, Group(s.portCapabilities, port)) != {}
    ensures var c, group := CapabilityOf(s, port), Group(s.portCapabilities, port);
            Publishes(s, port, o) && Foremost(group, Unfenced(s, group), o) ==>
              && c.connector == group[o].value.connector && c.media == group[o].value.media
              && c.lanes == group[o].value.lanes && c.maxAttachments >= 1
              && (Publishes(s, port, p) && group[p].meta.authority == group[o].meta.authority ==>
                    c.maxAttachments <= group[p].value.maxAttachments || group[p].value.maxAttachments == 0)
              && (exists q :: Publishes(s, port, q) && group[q].meta.authority == group[o].meta.authority
                    && (c.maxAttachments == group[q].value.maxAttachments
                        || (group[q].value.maxAttachments == 0 && c.maxAttachments == 1)))
  {
    hide WinningOwner, Prevails, EndpointOf, AuthorityRank;
    var group := Group(s.portCapabilities, port);
    var owners := Unfenced(s, group);
    WinnerExactly(group, owners, o);
    if Publishes(s, port, o) && Foremost(group, owners, o) {
      var counts: set<U32> := set w | w in TopOwners(group, owners) :: group[w].value.maxAttachments;
      assert o in TopOwners(group, owners);
      assert group[o].value.maxAttachments in counts;
      var least := Least(counts, CountRank);
      var q :| q in TopOwners(group, owners) && group[q].value.maxAttachments == least;
      assert Publishes(s, port, q);
      if Publishes(s, port, p) && group[p].meta.authority == group[o].meta.authority {
        assert p in TopOwners(group, owners) && group[p].value.maxAttachments in counts;
      }
    }
  }

  // ---- The view of an object ----

  /** How the object fares, as its view puts it. */
  ghost predicate LifecycleTold(s: RegistryState, policy: Policy, x: Id, n: nat, state: LifecycleState)
    requires n < TWO_32
  {
    var v := LifecycleOf(s, x);
    var on := exists i: U32 :: i < n && DeriveSide(s, SideRef(x, i), policy).state in {Attached, Conflicting};
    var off := exists i: U32 :: i < n && DeriveSide(s, SideRef(x, i), policy).state == Empty;
    && (state == Disputed <==> v.conflicting)
    && (state == OutOfService <==> !v.conflicting && v.action == Retired)
    && (state == Gone <==> !v.conflicting && v.action == Removed)
    && (state == InQuarantine <==> !v.conflicting && v.action == Quarantined)
    && (state == InPlace <==> !v.conflicting && v.action == Present && on)
    && (state == Unattached <==> !v.conflicting && v.action == Present && !on && off)
    && (state == Registered <==> !v.conflicting && v.action == Present && !on && !off)
  }

  /** A side view tells what its derivation says: one edge for each port, and a note when there are several. */
  ghost predicate SideTold(s: RegistryState, policy: Policy, side: SideRef, v: SideView)
  {
    var d := DeriveSide(s, side, policy);
    && v.side == side.side && v.descriptor == SideDescriptorOf(s, side) && v.state == d.state
    && v.validation == d.validation && |v.edges| == |d.ports|
    && (forall j :: 0 <= j < |d.ports| ==>
          && v.edges[j].subject == side && v.edges[j].port == d.ports[j] && v.edges[j].authority == d.authority
          && v.edges[j].incarnation == d.incarnation && v.edges[j].validation == d.validation
          && v.edges[j].conflicting == (d.state == Conflicting)
          && multiset(v.edges[j].claims) == multiset(d.top) && NonDescending(v.edges[j].claims, ClaimRank)
          && (j < |d.slots| ==> v.edges[j].slot == d.slots[j])
          && (v.edges[j].connectorCompatible <==>
                ConnectorCompatible(SideDescriptorOf(s, side), CapabilityOf(s, d.ports[j])))
          && (v.edges[j].mediaCompatible <==> MediaCompatible(SideDescriptorOf(s, side), CapabilityOf(s, d.ports[j]))))
    && (v.conflicts != [] <==> DoubleBooked(s, side, policy))
    && (forall n :: n in v.conflicts ==>
          && n.reason == ObjectSideDoubleBooked && n.subject == Some(side)
          && multiset(n.claims) == multiset(d.top) && NonDescending(n.claims, ClaimRank))
  }

  lemma SideViewExactly(s: RegistryState, policy: Policy, side: SideRef)
    ensures SideTold(s, policy, side, DeriveSideView(s, side, policy))
  {
    hide DeriveSide, SideDescriptorOf, CapabilityOf, ConnectorCompatible, MediaCompatible, ClaimRank;
    var d := DeriveSide(s, side, policy);
    SortBySorts(d.top, ClaimRank);
    hide SortBy;
  }

  lemma LifecycleShown(s: RegistryState, policy: Policy, x: Id, n: nat)
    requires n < TWO_32
    ensures LifecycleTold(s, policy, x, n, LifecycleStateOf(LifecycleOf(s, x),
              SomeSide(s, x, policy, n, {Attached, Conflicting}), SomeSide(s, x, policy, n, {Empty})))
  {
    hide LifecycleOf, DeriveSide;
    if i :| 0 <= i < n && DeriveSide(s, SideRef(x, i), policy).state in {Attached, Conflicting} {
      var j: U32 := i;
      assert DeriveSide(s, SideRef(x, j), policy).state in {Attached, Conflicting};
    }
    if i :| 0 <= i < n && DeriveSide(s, SideRef(x, i), policy).state in {Empty} {
      var j: U32 := i;
      assert DeriveSide(s, SideRef(x, j), policy).state == Empty;
    }
  }

  /** The serial of the foremost owner who brought the object here, unless empty; else the registered one. */
  lemma SerialExactly(s: RegistryState, x: Id, registered: Text, o: Owner)
    ensures (forall p :: !Brings(s, x, p)) ==> SerialOf(s, x, registered) == registered
    ensures Brings(s, x, o) && Foremost(Group(s.reincarnations, x), ReincarnationOwners(s, x), o) ==>
              var serial := s.reincarnations[x][o].value.serial;
              SerialOf(s, x, registered) == if serial == [] then registered else serial
  {
    hide WinningOwner, Prevails, IncarnationOf;
    OwnersExactly(s, x);
    var owners := ReincarnationOwners(s, x);
    if owners != {} { WinnerExactly(Group(s.reincarnations, x), owners, o); }
  }

  /** The nominal capability of the foremost unfenced owner who publishes one; else the registered one. */
  lemma NominalExactly(s: RegistryState, x: Id, registered: NominalCapability, o: Owner)
    ensures var group := Group(s.objectCapabilities, x);
            && (Unfenced(s, group) == {} ==> ObjectCapabilityOf(s, x, registered) == registered)
            && (Foremost(group, Unfenced(s, group), o) ==> ObjectCapabilityOf(s, x, registered) == group[o].value)
  {
    hide WinningOwner, Prevails;
    var group := Group(s.objectCapabilities, x);
    if Unfenced(s, group) != {} { WinnerExactly(group, Unfenced(s, group), o); }
  }

  /** A registered object's view: its registration, the incarnation, how it fares, and each of its sides. */
  lemma ObjectExactly(s: RegistryState, policy: Policy, x: Id)
    requires RegistrationOf(s, x).Some? && |RegistrationOf(s, x).value.sides| < TWO_32
    ensures DeriveObject(s, policy, x).Some?
    ensures var v, d := DeriveObject(s, policy, x).value, RegistrationOf(s, x).value;
            && v.id == x && v.kind == d.kind && v.physicalLabel == d.physicalLabel && v.location == d.location
            && v.serial == SerialOf(s, x, d.serial) && v.incarnation == IncarnationOf(s, x)
            && v.capability == ObjectCapabilityOf(s, x, d.capability)
            && LifecycleTold(s, policy, x, |d.sides|, v.lifecycle) && |v.sides| == |d.sides|
            && (forall i: U32 :: i < |d.sides| ==> SideTold(s, policy, SideRef(x, i), v.sides[i]))
  {
    hide RegistrationOf, SerialOf, ObjectCapabilityOf, LifecycleTold, SideTold, LifecycleOf, SomeSide, CapabilityNotes,
         LifecycleNotes, SidesValidation, IncarnationOf, DeriveSideView, LifecycleStateOf;
    var d := RegistrationOf(s, x).value;
    LifecycleShown(s, policy, x, |d.sides|);
    forall i: U32 | i < |d.sides|
      ensures SideTold(s, policy, SideRef(x, i), SideViews(s, x, policy, |d.sides|)[i])
    {
      SideViewExactly(s, policy, SideRef(x, i));
    }
  }
}
