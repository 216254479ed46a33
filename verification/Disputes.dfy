// What an object's view reports as disputed, how far it is validated, and what a port and a side
// declare about each other, from the records.

module Disputes {
  import opened Words
  import opened Evidence
  import opened Ordering
  import opened State
  import opened Lifecycle
  import opened Derive
  import opened Objects
  import opened Verdicts
  import CatalogueLoops
  import Views

  // ---- Equal authorities that differ ----

  /** No given owner's record has a higher authority than that of o. */
  ghost predicate Leads<V>(group: map<Owner, Folded<V>>, owners: set<Owner>, o: Owner)
    requires owners <= group.Keys
  {
    && o in owners
    && forall p :: p in owners ==> AuthorityRank(group[p].meta.authority) <= AuthorityRank(group[o].meta.authority)
  }

  /** Two of the leading records say different things. */
  ghost predicate Contradicted<V>(group: map<Owner, Folded<V>>, owners: set<Owner>)
    requires owners <= group.Keys
  {
    exists o, p :: Leads(group, owners, o) && Leads(group, owners, p) && group[o].value != group[p].value
  }

  lemma LeadersExactly<V>(group: map<Owner, Folded<V>>, owners: set<Owner>)
    requires owners != {} && owners <= group.Keys
    ensures forall o :: o in TopOwners(group, owners) <==> Leads(group, owners, o)
    ensures WinningOwner(group, owners) in TopOwners(group, owners)
  {
    hide AuthorityRank, OwnerRank, WinningOwner;
    var w := WinningOwner(group, owners);
    Views.WinnerForemost(group, owners);
    assert forall p :: p in owners ==> AuthorityRank(group[p].meta.authority) <= AuthorityRank(group[w].meta.authority)
    by {
      forall p | p in owners
        ensures AuthorityRank(group[p].meta.authority) <= AuthorityRank(group[w].meta.authority)
      {
        assert CatalogueLoops.Prevails(group, w, p);
      }
    }
    forall o | Leads(group, owners, o)
      ensures o in TopOwners(group, owners)
    {
      AuthorityRankInjective(group[o].meta.authority, group[w].meta.authority);
    }
  }

  lemma DisagreeExactly<V>(group: map<Owner, Folded<V>>, owners: set<Owner>)
    requires owners != {} && owners <= group.Keys
    ensures Disagree(group, owners) <==> Contradicted(group, owners)
  {
    hide AuthorityRank, OwnerRank, WinningOwner, TopOwners;
    LeadersExactly(group, owners);
    hide Leads;
    var w := WinningOwner(group, owners);
    if Contradicted(group, owners) {
      var o, p :| Leads(group, owners, o) && Leads(group, owners, p) && group[o].value != group[p].value;
      assert group[o].value != group[w].value || group[p].value != group[w].value;
    }
  }

  // ---- The notes of an object ----

  ghost predicate Noted(notes: seq<Note>, reason: Reason) { exists n :: n in notes && n.reason == reason }

  /** The attestation of somebody who speaks of the object at the authority. */
  ghost predicate SpokenAt(s: RegistryState, x: Id, a: Authority, m: Attestation)
  {
    exists o :: Speaks(s, x, o) && s.lifecycles[x][o].meta == m && m.authority == a
  }

  /** That of somebody who brought it to its incarnation. */
  ghost predicate BroughtAt(s: RegistryState, x: Id, a: Authority, m: Attestation)
  {
    exists o :: Brings(s, x, o) && s.reincarnations[x][o].meta == m && m.authority == a
  }

  /** A lifecycle note cites the records at the peak, and no others. */
  ghost predicate CitesPeak(s: RegistryState, x: Id, claims: seq<Attestation>)
  {
    forall a :: Peak(s, x, a) ==>
      forall m :: m in claims <==>
        SpokenAt(s, x, a, m) || BroughtAt(s, x, a, m)
  }

  /**
    * A view reports a dispute about capabilities if and only if two leading unfenced publications or two
    * leading registrations differ, one about the lifecycle if and only if the verdict is disputed, and no
    * other.
    */
  lemma ObjectNotesExactly(s: RegistryState, policy: Policy, x: Id)
    requires DeriveObject(s, policy, x).Some?
    ensures var v := DeriveObject(s, policy, x).value;
            var published := Group(s.objectCapabilities, x);
            && (Noted(v.conflicts, CapabilityConflict) <==>
                  || Contradicted(published, Unfenced(s, published))
                  || Contradicted(Group(s.objects, x), Group(s.objects, x).Keys))
            && (Noted(v.conflicts, LifecycleConflict) <==> LifecycleOf(s, x).conflicting)
            && (forall n :: n in v.conflicts ==>
                  && (n.reason == CapabilityConflict || n.reason == LifecycleConflict)
                  && (n.reason == LifecycleConflict ==> CitesPeak(s, x, n.claims)))
  {
    hide SortBy, LifecycleCitations, Disagree, LifecycleOf, CandidateAuthorities, RegistrationOf, SerialOf,
         ObjectCapabilityOf, SideViews, SomeSide, SidesValidation, IncarnationOf, LifecycleStateOf, Contradicted, Peak;
    var v := DeriveObject(s, policy, x).value;
    assert v.conflicts == CapabilityNotes(s, x) + LifecycleNotes(s, x);
    CapabilityNoted(s, x);
    LifecycleNoted(s, x);
    hide CapabilityNotes, LifecycleNotes, DeriveObject, CitesPeak, Unfenced;
    assert forall n :: n in v.conflicts <==> n in CapabilityNotes(s, x) || n in LifecycleNotes(s, x);
  }

  lemma CapabilityNoted(s: RegistryState, x: Id)
    ensures var notes, published := CapabilityNotes(s, x), Group(s.objectCapabilities, x);
            && (Noted(notes, CapabilityConflict) <==>
                  || Contradicted(published, Unfenced(s, published))
                  || Contradicted(Group(s.objects, x), Group(s.objects, x).Keys))
            && forall n :: n in notes ==> n.reason == CapabilityConflict
  {
    hide Disagree;
    var published, registered := Group(s.objectCapabilities, x), Group(s.objects, x);
    var owners := Unfenced(s, published);
    if owners != {} { DisagreeExactly(published, owners); }
    if registered.Keys != {} { DisagreeExactly(registered, registered.Keys); }
    var note := Note(CapabilityConflict, None, None, []);
    assert owners == {} ==> !Contradicted(published, owners);
    assert registered.Keys == {} ==> !Contradicted(registered, registered.Keys);
    hide Contradicted, Unfenced;
    assert CapabilityNotes(s, x) == [] || note in CapabilityNotes(s, x);
  }

  lemma LifecycleNoted(s: RegistryState, x: Id)
    ensures var notes := LifecycleNotes(s, x);
            && (Noted(notes, LifecycleConflict) <==> LifecycleOf(s, x).conflicting)
            && forall n :: n in notes ==> n.reason == LifecycleConflict && CitesPeak(s, x, n.claims)
  {
    hide CitesPeak, CandidateAuthorities, Combine;
    if CandidateAuthorities(s, x) != {} && LifecycleOf(s, x).conflicting {
      var claims := SortBy(LifecycleCitations(s, x), ClaimRank);
      PeakCited(s, x);
      hide LifecycleCitations, SortBy;
      var n := Note(LifecycleConflict, None, None, claims);
      assert LifecycleNotes(s, x) == [n] && n in [n];
    }
  }

  lemma SpokenListed(s: RegistryState, x: Id, a: Authority, m: Attestation)
    ensures m in TopMetas(Group(s.lifecycles, x), LifecycleOwners(s, x), a) <==> SpokenAt(s, x, a, m)
    ensures m in TopMetas(Group(s.reincarnations, x), ReincarnationOwners(s, x), a) <==> BroughtAt(s, x, a, m)
  {
    hide IncarnationOf;
    OwnersExactly(s, x);
    assert forall o :: Speaks(s, x, o) ==> Has(s.lifecycles, x, o);
    assert forall o :: Brings(s, x, o) ==> Has(s.reincarnations, x, o);
    TopMetasExactly(Group(s.lifecycles, x), LifecycleOwners(s, x), a);
    TopMetasExactly(Group(s.reincarnations, x), ReincarnationOwners(s, x), a);
    hide TopMetas, LifecycleOwners, ReincarnationOwners, Speaks, Brings;
  }

  lemma PeakCited(s: RegistryState, x: Id)
    requires CandidateAuthorities(s, x) != {}
    ensures CitesPeak(s, x, SortBy(LifecycleCitations(s, x), ClaimRank))
  {
    hide ClaimRank, SortBy, CandidateAuthorities, Peak, BestLifecycleAuthority, TopMetas, LifecycleOwners,
         ReincarnationOwners, SpokenAt, BroughtAt;
    var listed := LifecycleCitations(s, x);
    SortByMembers(listed, ClaimRank);
    forall a, m | Peak(s, x, a)
      ensures m in listed <==> SpokenAt(s, x, a, m) || BroughtAt(s, x, a, m)
    {
      PeakIsBest(s, x, a);
      SpokenListed(s, x, a, m);
    }
  }

  lemma TopMetasExactly<V>(group: map<Owner, Folded<V>>, owners: set<Owner>, best: Authority)
    requires owners <= group.Keys
    ensures forall m :: m in TopMetas(group, owners, best) <==>
              exists o :: o in owners && group[o].meta == m && m.authority == best
  {
    hide OwnerRank;
    var top := Sorted((set o | o in owners && group[o].meta.authority == best), OwnerRank);
    assert forall i :: 0 <= i < |top| ==> top[i] in top;
    var metas := TopMetas(group, owners, best);
    assert metas == OwnerMetas(group, top);
    forall m | exists o :: o in owners && group[o].meta == m && m.authority == best
      ensures m in metas
    {
      var o :| o in owners && group[o].meta == m && m.authority == best;
      assert o in top;
      var i :| 0 <= i < |top| && top[i] == o;
      assert metas[i] == m;
    }
    forall m | m in metas
      ensures exists o :: o in owners && group[o].meta == m && m.authority == best
    {
      var i :| 0 <= i < |metas| && metas[i] == m;
      assert top[i] in owners && group[top[i]].meta == m;
    }
  }

  // ---- Validation ----

  /** A side that has records, seen in this lifetime to the given extent. */
  ghost predicate Recorded(s: RegistryState, policy: Policy, x: Id, i: U32)
  {
    DeriveSide(s, SideRef(x, i), policy).hasRecords
  }

  /** An object is validated as far as its recorded sides are. */
  lemma ObjectValidation(s: RegistryState, policy: Policy, x: Id)
    requires DeriveObject(s, policy, x).Some?
    ensures var v := DeriveObject(s, policy, x).value;
            && (v.validation == Unvalidated <==>
                  forall i: U32 :: i < |v.sides| && Recorded(s, policy, x, i) ==> v.sides[i].validation == Unvalidated)
            && (v.validation == Validated <==>
                  && (exists i: U32 :: i < |v.sides| && Recorded(s, policy, x, i))
                  && forall i: U32 :: i < |v.sides| && Recorded(s, policy, x, i) ==>
                                        v.sides[i].validation == Validated)
  {
    hide DeriveSide, SideEdges, RegistrationOf, SerialOf, ObjectCapabilityOf, LifecycleOf, SomeSide, CapabilityNotes,
         LifecycleNotes, IncarnationOf, LifecycleStateOf, SideDescriptorOf, SortBy;
    var v := DeriveObject(s, policy, x).value;
    assert forall i: U32 :: i < |v.sides| ==>
        v.sides[i].validation == DeriveSide(s, SideRef(x, i), policy).validation;
    hide SideViews;
    assert v.validation == SidesValidation(s, x, policy, |v.sides|);
    hide DeriveObject;
  }

  // ---- Declarations ----

  /** A side declares what its object's registration says, and nothing when that has no such side. */
  lemma SideDescriptorExactly(s: RegistryState, side: SideRef)
    ensures var r, d := RegistrationOf(s, side.objectId), SideDescriptorOf(s, side);
            && (r.Some? && side.side < |r.value.sides| ==> d == r.value.sides[side.side])
            && (r.None? || side.side >= |r.value.sides| ==>
                  d.connector == CONNECTOR_UNKNOWN && d.media == MEDIA_UNKNOWN && d.lanes == 0)
  {
    hide RegistrationOf;
  }

  /** A side and a port are incompatible only where both declare something and it differs. */
  lemma MismatchExactly(side: SideDescriptor, c: PortCapability)
    ensures !ConnectorCompatible(side, c) <==>
            side.connector != CONNECTOR_UNKNOWN && c.connector != CONNECTOR_UNKNOWN && side.connector != c.connector
    ensures !MediaCompatible(side, c) <==>
            side.media != MEDIA_UNKNOWN && c.media != MEDIA_UNKNOWN && side.media != c.media
  {
  }
}
