// The lifecycle verdict, from the records: who speaks, at which authority, and what follows from
// what they say.

module Verdicts {
  import opened Words
  import opened Evidence
  import opened Ordering
  import opened State
  import opened Lifecycle

  /** The owner's word on how the object fares counts: unfenced, and against the current incarnation. */
  ghost predicate Speaks(s: RegistryState, x: Id, o: Owner)
  {
    && Has(s.lifecycles, x, o) && !Fenced(s, o)
    && s.lifecycles[x][o].value.objectIncarnation == IncarnationOf(s, x)
  }

  /** The owner brought the object to its current incarnation. */
  ghost predicate Brings(s: RegistryState, x: Id, o: Owner)
  {
    Has(s.reincarnations, x, o) && !Fenced(s, o) && s.reincarnations[x][o].value.target == IncarnationOf(s, x)
  }

  /** Somebody at the authority speaks of the object or brought it here, and nobody above does. */
  ghost predicate Peak(s: RegistryState, x: Id, a: Authority)
  {
    && ((exists o :: Speaks(s, x, o) && s.lifecycles[x][o].meta.authority == a) || Restores(s, x, a))
    && (forall o :: Speaks(s, x, o) ==> AuthorityRank(s.lifecycles[x][o].meta.authority) <= AuthorityRank(a))
    && (forall o :: Brings(s, x, o) ==> AuthorityRank(s.reincarnations[x][o].meta.authority) <= AuthorityRank(a))
  }

  /** Somebody at the authority says the object fares so. */
  ghost predicate Holds(s: RegistryState, x: Id, a: Authority, action: LifecycleAction)
  {
    exists o ::
      Speaks(s, x, o) && s.lifecycles[x][o].meta.authority == a && s.lifecycles[x][o].value.action == action
  }

  /** Somebody at the authority brought the object to its current incarnation, which says it is present. */
  ghost predicate Restores(s: RegistryState, x: Id, a: Authority)
  {
    exists o :: Brings(s, x, o) && s.reincarnations[x][o].meta.authority == a
  }

  lemma OwnersExactly(s: RegistryState, x: Id)
    ensures forall o :: o in LifecycleOwners(s, x) <==> Speaks(s, x, o)
    ensures forall o :: o in ReincarnationOwners(s, x) <==> Brings(s, x, o)
  {
    hide IncarnationOf;
  }

  lemma CandidatesExactly(s: RegistryState, x: Id)
    ensures forall a :: a in CandidateAuthorities(s, x) <==>
              (exists o :: Speaks(s, x, o) && s.lifecycles[x][o].meta.authority == a) || Restores(s, x, a)
  {
    hide IncarnationOf;
    OwnersExactly(s, x);
    hide LifecycleOwners, ReincarnationOwners;
    forall a
      ensures a in AuthoritiesOf(Group(s.lifecycles, x), LifecycleOwners(s, x)) <==>
              exists o :: Speaks(s, x, o) && s.lifecycles[x][o].meta.authority == a
    {
    }
    forall a
      ensures a in AuthoritiesOf(Group(s.reincarnations, x), ReincarnationOwners(s, x)) <==> Restores(s, x, a)
    {
    }
  }

  lemma PeakIsBest(s: RegistryState, x: Id, a: Authority)
    requires Peak(s, x, a)
    ensures CandidateAuthorities(s, x) != {} && BestLifecycleAuthority(s, x) == a
    ensures Restored(s, x) <==> Restores(s, x, a)
    ensures forall action :: Asserted(s, x, action) <==> Holds(s, x, a, action)
  {
    hide IncarnationOf, AuthorityRank;
    CandidatesExactly(s, x);
    OwnersExactly(s, x);
    assert forall o :: Speaks(s, x, o) ==> Has(s.lifecycles, x, o);
    assert forall o :: Brings(s, x, o) ==> Has(s.reincarnations, x, o);
    hide CandidateAuthorities, LifecycleOwners, ReincarnationOwners, Speaks, Brings;
    assert a in CandidateAuthorities(s, x);
    var best := BestLifecycleAuthority(s, x);
    assert AuthorityRank(best) <= AuthorityRank(a);
    AuthorityRankInjective(best, a);
  }

  /**
    * The verdict, from what the peak authority says.  Retired prevails over everything but a restoration
    * that only a retirement contradicts; Removed prevails over Present; Quarantined stands only alone,
    * and with anything but Retired it is a conflict.
    */
  lemma VerdictExactly(s: RegistryState, x: Id, a: Authority)
    requires Peak(s, x, a)
    ensures var v := LifecycleOf(s, x);
            var present := Holds(s, x, a, Present) || Restores(s, x, a);
            var removed, aside := Holds(s, x, a, Removed), Holds(s, x, a, Quarantined);
            var retired := Holds(s, x, a, Retired);
            var revived := Restores(s, x, a) && retired && !removed && !aside;
            && (v == Verdict(Retired, false) <==> retired && !revived)
            && (v == Verdict(Removed, false) <==> removed && !retired && !aside)
            && (v == Verdict(Quarantined, false) <==> aside && !retired && !removed && !present)
            && (v == Verdict(Present, true) <==> aside && !retired && (removed || present))
            && (v == Verdict(Present, false) <==> revived || (!retired && !removed && !aside))
  {
    hide Holds, Restores, Peak, Asserted, Restored, CandidateAuthorities, BestLifecycleAuthority;
    PeakIsBest(s, x, a);
  }

  /** Nobody speaks of the object: it is present. */
  lemma NobodySpeaks(s: RegistryState, x: Id)
    requires forall o :: !Speaks(s, x, o) && !Brings(s, x, o)
    ensures LifecycleOf(s, x) == Verdict(Present, false)
  {
    hide IncarnationOf;
    CandidatesExactly(s, x);
    hide CandidateAuthorities;
    if a :| a in CandidateAuthorities(s, x) {
      assert false;
    }
  }

  /** Somebody speaks: there is a peak. */
  lemma SomePeak(s: RegistryState, x: Id) returns (a: Authority)
    requires exists o :: Speaks(s, x, o) || Brings(s, x, o)
    ensures Peak(s, x, a)
  {
    hide IncarnationOf, AuthorityRank;
    CandidatesExactly(s, x);
    assert forall o :: Speaks(s, x, o) ==> Has(s.lifecycles, x, o);
    assert forall o :: Brings(s, x, o) ==> Has(s.reincarnations, x, o);
    hide CandidateAuthorities, Speaks, Brings;
    var o :| Speaks(s, x, o) || Brings(s, x, o);
    if Speaks(s, x, o) {
      assert s.lifecycles[x][o].meta.authority in CandidateAuthorities(s, x);
    } else {
      assert Restores(s, x, s.reincarnations[x][o].meta.authority);
      assert s.reincarnations[x][o].meta.authority in CandidateAuthorities(s, x);
    }
    a := BestLifecycleAuthority(s, x);
    forall p | Speaks(s, x, p)
      ensures AuthorityRank(s.lifecycles[x][p].meta.authority) <= AuthorityRank(a)
    {
      assert s.lifecycles[x][p].meta.authority in CandidateAuthorities(s, x);
    }
    forall p | Brings(s, x, p)
      ensures AuthorityRank(s.reincarnations[x][p].meta.authority) <= AuthorityRank(a)
    {
      assert Restores(s, x, s.reincarnations[x][p].meta.authority);
      assert s.reincarnations[x][p].meta.authority in CandidateAuthorities(s, x);
    }
  }

  /** One word at the peak, and nothing else said there, is the verdict. */
  lemma OneWord(s: RegistryState, x: Id, a: Authority, action: LifecycleAction)
    requires Peak(s, x, a) && (Restores(s, x, a) ==> action == Present)
    requires forall other :: Holds(s, x, a, other) ==> other == action
    ensures LifecycleOf(s, x) == Verdict(action, false)
  {
    hide Restores, LifecycleOf, IncarnationOf, Fenced;
    VerdictExactly(s, x, a);
    if o :| Speaks(s, x, o) && s.lifecycles[x][o].meta.authority == a {
      assert Holds(s, x, a, s.lifecycles[x][o].value.action);
    }
  }
}
