// Where a side sits, from its records.

module SideStanding {
  import opened Words
  import opened Evidence
  import opened Ordering
  import opened State
  import opened Lifecycle
  import opened Derive
  import Sharing

  // ---- A side, from its records ----

  /** The record on the side counts: unfenced, admitted, and against the current incarnation. */
  ghost predicate Weighs(s: RegistryState, policy: Policy, side: SideRef, o: Owner)
  {
    Has(s.subjects, side, o) &&
    var f := s.subjects[side][o];
    && !Fenced(s, o) && (policy.LiveOnly? ==> f.meta.inLifetime)
    && f.value.objectIncarnation == IncarnationOf(s, side.objectId)
  }

  /** No record on the side that counts has a higher authority. */
  ghost predicate Foremost(s: RegistryState, policy: Policy, side: SideRef, o: Owner)
  {
    && Weighs(s, policy, side, o)
    && forall p :: Weighs(s, policy, side, p) ==>
                     AuthorityRank(s.subjects[side][p].meta.authority)
                     <= AuthorityRank(s.subjects[side][o].meta.authority)
  }

  ghost predicate Said(s: RegistryState, policy: Policy, side: SideRef, attached: bool)
  {
    exists o :: Foremost(s, policy, side, o) && s.subjects[side][o].value.attached == attached
  }

  ghost function ForemostPorts(s: RegistryState, policy: Policy, side: SideRef): set<PortRef>
  {
    set o | o in Group(s.subjects, side) && Foremost(s, policy, side, o) && s.subjects[side][o].value.attached ::
      s.subjects[side][o].value.port
  }

  lemma OwnersExactly(s: RegistryState, policy: Policy, side: SideRef)
    ensures forall o, attached :: o in SideOwners(s, side, policy, attached) <==>
              Weighs(s, policy, side, o) && s.subjects[side][o].value.attached == attached
  {
    hide IncarnationOf;
  }

  lemma AuthoritiesExactly(s: RegistryState, policy: Policy, side: SideRef, attached: bool)
    ensures SideAuthorities(s, side, policy, attached) != {} <==>
            exists o :: Weighs(s, policy, side, o) && s.subjects[side][o].value.attached == attached
    ensures SideAuthorities(s, side, policy, attached) != {} ==>
              var best := BestOf(SideAuthorities(s, side, policy, attached));
              && (exists o :: Weighs(s, policy, side, o) && s.subjects[side][o].value.attached == attached
                    && s.subjects[side][o].meta.authority == best)
              && (forall o :: Weighs(s, policy, side, o) && s.subjects[side][o].value.attached == attached ==>
                    AuthorityRank(s.subjects[side][o].meta.authority) <= AuthorityRank(best))
  {
    hide IncarnationOf, AuthorityRank, LiveSides;
    OwnersExactly(s, policy, side);
    hide SideOwners;
    var all := SideAuthorities(s, side, policy, attached);
    forall o | Weighs(s, policy, side, o) && s.subjects[side][o].value.attached == attached
      ensures s.subjects[side][o].meta.authority in all
    {
    }
    if all != {} {
      var best := BestOf(all);
      var o :| o in SideOwners(s, side, policy, attached) && s.subjects[side][o].meta.authority == best;
      assert Weighs(s, policy, side, o);
    }
  }

  /** Which of the two words is foremost. */
  lemma WinsExactly(s: RegistryState, policy: Policy, side: SideRef)
    ensures AttachedWins(s, side, policy) <==> Said(s, policy, side, true) && !Said(s, policy, side, false)
    ensures DetachedWins(s, side, policy) <==> Said(s, policy, side, false) && !Said(s, policy, side, true)
    ensures Said(s, policy, side, true) || Said(s, policy, side, false) <==>
            SideAuthorities(s, side, policy, true) != {} || SideAuthorities(s, side, policy, false) != {}
  {
    hide IncarnationOf, AuthorityRank, SideAuthorities, Weighs;
    AuthoritiesExactly(s, policy, side, true);
    AuthoritiesExactly(s, policy, side, false);
    SaidExactly(s, policy, side, true);
    SaidExactly(s, policy, side, false);
  }

  /** One word is foremost exactly when somebody says it and nobody says the other at a higher authority. */
  lemma SaidExactly(s: RegistryState, policy: Policy, side: SideRef, attached: bool)
    ensures var mine, other := SideAuthorities(s, side, policy, attached), SideAuthorities(s, side, policy, !attached);
            Said(s, policy, side, attached) <==>
            mine != {} && (other == {} || !Below(BestOf(mine), BestOf(other)))
  {
    hide IncarnationOf, AuthorityRank, SideAuthorities, BestOf;
    AuthoritiesExactly(s, policy, side, attached);
    AuthoritiesExactly(s, policy, side, !attached);
    assert forall o :: Weighs(s, policy, side, o) ==> Has(s.subjects, side, o);
    hide Weighs;
    var mine, other := SideAuthorities(s, side, policy, attached), SideAuthorities(s, side, policy, !attached);
    if mine != {} && (other == {} || !Below(BestOf(mine), BestOf(other))) {
      var o :| Weighs(s, policy, side, o) && s.subjects[side][o].value.attached == attached
               && s.subjects[side][o].meta.authority == BestOf(mine);
      forall p | Weighs(s, policy, side, p)
        ensures AuthorityRank(s.subjects[side][p].meta.authority) <= AuthorityRank(s.subjects[side][o].meta.authority)
      {
        assert s.subjects[side][p].value.attached == attached || s.subjects[side][p].value.attached == !attached;
      }
      assert Foremost(s, policy, side, o);
    }
  }

  lemma TopExactly(s: RegistryState, policy: Policy, side: SideRef)
    requires AttachedWins(s, side, policy)
    ensures forall o :: o in TopSides(s, side, policy) <==>
              Foremost(s, policy, side, o) && s.subjects[side][o].value.attached
    ensures TopPorts(s, side, policy) == ForemostPorts(s, policy, side)
    ensures forall o :: Foremost(s, policy, side, o) ==>
              s.subjects[side][o].meta.authority == BestOf(SideAuthorities(s, side, policy, true))
  {
    hide IncarnationOf, AuthorityRank, SideAuthorities, BestOf;
    WinsExactly(s, policy, side);
    AuthoritiesExactly(s, policy, side, true);
    OwnersExactly(s, policy, side);
    assert forall o :: Weighs(s, policy, side, o) ==> Has(s.subjects, side, o);
    hide Weighs, SideOwners, AttachedWins, DetachedWins;
    var best := BestOf(SideAuthorities(s, side, policy, true));
    var w :| Weighs(s, policy, side, w) && s.subjects[side][w].value.attached
           && s.subjects[side][w].meta.authority == best;
    forall o | Foremost(s, policy, side, o)
      ensures s.subjects[side][o].value.attached && s.subjects[side][o].meta.authority == best
    {
      assert Said(s, policy, side, s.subjects[side][o].value.attached);
      AuthorityRankInjective(s.subjects[side][o].meta.authority, best);
    }
    forall o | o in TopSides(s, side, policy)
      ensures Foremost(s, policy, side, o)
    {
      var f :| Foremost(s, policy, side, f);
      AuthorityRankInjective(s.subjects[side][f].meta.authority, best);
    }
  }

  /**
    * All four answers about a side.  Unknown: not registered, or no record weighs.  Empty: the foremost
    * records detach it.  Attached: they put it into one port.  Conflicting: they do both, or name
    * several ports.
    */
  lemma SideStateExactly(s: RegistryState, policy: Policy, side: SideRef)
    ensures var d := DeriveSide(s, side, policy);
            var on, off := Said(s, policy, side, true), Said(s, policy, side, false);
            var ports := ForemostPorts(s, policy, side);
            && (d.hasRecords <==> d.state != Unknown) && d.incarnation == IncarnationOf(s, side.objectId)
            && (d.state == Unknown <==>
                  !ObjectExists(s, side.objectId) || forall o :: !Weighs(s, policy, side, o))
            && (d.state == Empty <==> ObjectExists(s, side.objectId) && off && !on)
            && (d.state == Attached <==> ObjectExists(s, side.objectId) && on && !off && |ports| == 1)
            && (d.state == Conflicting <==> ObjectExists(s, side.objectId) && on && (off || |ports| > 1))
  {
    hide IncarnationOf, AuthorityRank, SideAuthorities, SideValidation, TopClaims, TopClaimSlots, ForemostPorts;
    WinsExactly(s, policy, side);
    AuthoritiesExactly(s, policy, side, true);
    AuthoritiesExactly(s, policy, side, false);
    NobodyWeighs(s, policy, side);
    hide Weighs, Said;
    if AttachedWins(s, side, policy) {
      TopExactly(s, policy, side);
      Sharing.SomePort(s, policy, side);
    }
  }

  lemma NobodyWeighs(s: RegistryState, policy: Policy, side: SideRef)
    ensures (exists o :: Weighs(s, policy, side, o)) <==>
            SideAuthorities(s, side, policy, true) != {} || SideAuthorities(s, side, policy, false) != {}
  {
    hide IncarnationOf, AuthorityRank, SideAuthorities, BestOf;
    AuthoritiesExactly(s, policy, side, true);
    AuthoritiesExactly(s, policy, side, false);
    if o :| Weighs(s, policy, side, o) {
      assert s.subjects[side][o].value.attached == true || s.subjects[side][o].value.attached == false;
    }
  }

  /** The record counts and says so. */
  ghost predicate Utters(s: RegistryState, policy: Policy, side: SideRef, attached: bool, o: Owner)
  {
    Weighs(s, policy, side, o) && s.subjects[side][o].value.attached == attached
  }

  predicate InLifetime(s: RegistryState, side: SideRef, o: Owner)
  {
    Has(s.subjects, side, o) && s.subjects[side][o].meta.inLifetime
  }

  /** How far the records that say so were heard of in this lifetime. */
  ghost predicate Heard(s: RegistryState, policy: Policy, side: SideRef, attached: bool, v: Validation)
  {
    && (v == Unvalidated <==> forall o :: Utters(s, policy, side, attached, o) ==> !InLifetime(s, side, o))
    && (v == Validated <==>
          && (exists o :: Utters(s, policy, side, attached, o))
          && forall o :: Utters(s, policy, side, attached, o) ==> InLifetime(s, side, o))
  }

  ghost predicate AtForemost(s: RegistryState, policy: Policy, side: SideRef, a: Authority)
  {
    forall o :: Foremost(s, policy, side, o) ==> a == s.subjects[side][o].meta.authority
  }

  /** A claim and the slot it names, of one of the foremost records. */
  ghost predicate Backed(s: RegistryState, policy: Policy, side: SideRef, m: Attestation, slot: U32)
  {
    exists o :: Foremost(s, policy, side, o) && s.subjects[side][o].meta == m && s.subjects[side][o].value.slot == slot
  }

  /** A side that is placed shows the ports, authority, claims and slots of the foremost records, and no others. */
  lemma PlacedExactly(s: RegistryState, policy: Policy, side: SideRef)
    requires ObjectExists(s, side.objectId) && Said(s, policy, side, true) && !Said(s, policy, side, false)
    ensures var d := DeriveSide(s, side, policy);
            && d.ports == Sorted(ForemostPorts(s, policy, side), PortRank)
            && AtForemost(s, policy, side, d.authority) && Heard(s, policy, side, true, d.validation)
            && |d.slots| == |d.top|
            && (forall m :: m in d.top <==>
                  exists o :: Foremost(s, policy, side, o) && s.subjects[side][o].meta == m)
            && (forall i :: 0 <= i < |d.top| ==> Backed(s, policy, side, d.top[i], d.slots[i]))
  {
    hide IncarnationOf, AuthorityRank, SideAuthorities, SideValidation, TopClaims, TopClaimSlots, ForemostPorts, Sorted,
         BestOf, TopPorts, Heard, Backed;
    WinsExactly(s, policy, side);
    AuthoritiesExactly(s, policy, side, true);
    TopExactly(s, policy, side);
    ClaimsExactly(s, policy, side);
    BackedExactly(s, policy, side);
    HeardExactly(s, policy, side, true);
  }

  /** A side that is detached shows the authority of the foremost records and how far detachments were heard of. */
  lemma DetachedExactly(s: RegistryState, policy: Policy, side: SideRef)
    requires ObjectExists(s, side.objectId) && Said(s, policy, side, false) && !Said(s, policy, side, true)
    ensures var d := DeriveSide(s, side, policy);
            && d.ports == [] && d.slots == [] && d.top == []
            && AtForemost(s, policy, side, d.authority) && Heard(s, policy, side, false, d.validation)
  {
    hide IncarnationOf, AuthorityRank, SideAuthorities, SideValidation, TopClaims, TopClaimSlots, Sorted, BestOf,
         TopPorts, Heard, AtForemost;
    WinsExactly(s, policy, side);
    AuthoritiesExactly(s, policy, side, false);
    ForemostBest(s, policy, side, false);
    HeardExactly(s, policy, side, false);
  }

  /** A side the foremost records both place and detach names no port; either word vouches for it. */
  lemma TornExactly(s: RegistryState, policy: Policy, side: SideRef)
    requires ObjectExists(s, side.objectId) && Said(s, policy, side, true) && Said(s, policy, side, false)
    ensures var d := DeriveSide(s, side, policy);
            && d.ports == [] && d.slots == [] && d.top == [] && AtForemost(s, policy, side, d.authority)
            && exists on, off :: Heard(s, policy, side, true, on) && Heard(s, policy, side, false, off)
                 && (d.validation == Unvalidated <==> on == Unvalidated && off == Unvalidated)
                 && (d.validation == Validated <==> on == Validated || off == Validated)
  {
    hide IncarnationOf, AuthorityRank, SideAuthorities, SideValidation, TopClaims, TopClaimSlots, Sorted, BestOf,
         TopPorts, Heard, AtForemost;
    WinsExactly(s, policy, side);
    AuthoritiesExactly(s, policy, side, true);
    ForemostBest(s, policy, side, true);
    HeardExactly(s, policy, side, true);
    HeardExactly(s, policy, side, false);
  }

  /** A side that is not known shows nothing. */
  lemma UnknownExactly(s: RegistryState, policy: Policy, side: SideRef)
    requires !ObjectExists(s, side.objectId) || forall o :: !Weighs(s, policy, side, o)
    ensures var d := DeriveSide(s, side, policy);
            d.ports == [] && d.slots == [] && d.top == [] && d.authority == NO_AUTHORITY && d.validation == Unvalidated
  {
    hide IncarnationOf, AuthorityRank, SideAuthorities, SideValidation, TopClaims, TopClaimSlots, Sorted, BestOf,
         TopPorts, Weighs, AttachedWins, DetachedWins;
    NobodyWeighs(s, policy, side);
  }

  lemma ForemostBest(s: RegistryState, policy: Policy, side: SideRef, attached: bool)
    requires Said(s, policy, side, attached)
    ensures SideAuthorities(s, side, policy, attached) != {}
    ensures AtForemost(s, policy, side, BestOf(SideAuthorities(s, side, policy, attached)))
  {
    hide IncarnationOf, AuthorityRank, SideAuthorities, BestOf;
    AuthoritiesExactly(s, policy, side, attached);
    assert forall o :: Weighs(s, policy, side, o) ==> Has(s.subjects, side, o);
    hide Weighs;
    var best := BestOf(SideAuthorities(s, side, policy, attached));
    var f :| Foremost(s, policy, side, f) && s.subjects[side][f].value.attached == attached;
    forall o | Foremost(s, policy, side, o)
      ensures best == s.subjects[side][o].meta.authority
    {
      assert AuthorityRank(s.subjects[side][o].meta.authority) == AuthorityRank(s.subjects[side][f].meta.authority);
      AuthorityRankInjective(s.subjects[side][o].meta.authority, best);
    }
  }

  lemma BackedExactly(s: RegistryState, policy: Policy, side: SideRef)
    requires AttachedWins(s, side, policy)
    ensures var claims, slots := TopClaims(s, side, policy), TopClaimSlots(s, side, policy);
            |claims| == |slots| && forall i :: 0 <= i < |claims| ==> Backed(s, policy, side, claims[i], slots[i])
  {
    hide SideAuthorities, OwnerRank, BestOf, Foremost;
    TopExactly(s, policy, side);
    var top := TopSides(s, side, policy);
    var owners := Sorted(top, OwnerRank);
    assert forall i :: 0 <= i < |owners| ==> owners[i] in owners;
    assert forall i :: 0 <= i < |owners| ==> owners[i] in top;
    hide Sorted, TopSides;
  }

  lemma ClaimsExactly(s: RegistryState, policy: Policy, side: SideRef)
    requires AttachedWins(s, side, policy)
    ensures forall m :: m in TopClaims(s, side, policy) <==>
              exists o :: o in TopSides(s, side, policy) && Group(s.subjects, side)[o].meta == m
  {
    hide SideAuthorities, OwnerRank, BestOf;
    var top := TopSides(s, side, policy);
    var owners := Sorted(top, OwnerRank);
    assert forall i :: 0 <= i < |owners| ==> owners[i] in owners;
    hide Sorted;
    forall m | m in TopClaims(s, side, policy)
      ensures exists o :: o in top && Group(s.subjects, side)[o].meta == m
    {
      var i :| 0 <= i < |owners| && TopClaims(s, side, policy)[i] == m;
      assert owners[i] in top;
    }
    forall o | o in top
      ensures Group(s.subjects, side)[o].meta in TopClaims(s, side, policy)
    {
      var i :| 0 <= i < |owners| && owners[i] == o;
      assert TopClaims(s, side, policy)[i] == Group(s.subjects, side)[o].meta;
    }
  }

  lemma HeardExactly(s: RegistryState, policy: Policy, side: SideRef, attached: bool)
    requires SideAuthorities(s, side, policy, attached) != {}
    ensures Heard(s, policy, side, attached, SideValidation(s, side, policy, attached))
  {
    hide IncarnationOf, LiveSides;
    OwnersExactly(s, policy, side);
    assert forall o :: o in SideOwners(s, side, policy, attached) <==> Utters(s, policy, side, attached, o);
    assert forall o :: Utters(s, policy, side, attached, o) ==>
        (InLifetime(s, side, o) <==> s.subjects[side][o].meta.inLifetime);
    hide SideOwners, Utters;
    var a :| a in SideAuthorities(s, side, policy, attached);
    var w :| w in SideOwners(s, side, policy, attached);
  }
}
