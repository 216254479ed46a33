// The registry's lookups as it runs them: one pass over a group with running maxima and flags.

module Lookups {
  import opened Words
  import opened Evidence
  import opened Ordering
  import opened State
  import opened Lifecycle
  import opened Ingest

  lemma MaximumIs(s: set<int>, m: int)
    requires m in s && forall x :: x in s ==> x <= m
    ensures Maximum(s) == m
  {
  }

  /** object_incarnation_of() */
  method ObjectIncarnationOf(s: RegistryState, x: Id) returns (current: U64)
    ensures current == IncarnationOf(s, x)
  {
    current := 1;
    var group := Group(s.reincarnations, x);
    var todo := group.Keys;
    while todo != {}
      invariant todo <= group.Keys
      invariant current in {1} + LiveTargets(s, x) && current >= 1
      invariant forall o :: o in group && o !in todo && !Fenced(s, o) ==> group[o].value.target <= current
      decreases |todo|
    {
      var o :| o in todo;
      todo := todo - {o};
      if !Fenced(s, o) && group[o].value.target > current {
        current := group[o].value.target;
      }
    }
    assert forall t :: t in LiveTargets(s, x) ==> t <= current;
    MaximumIs({1} + LiveTargets(s, x), current);
  }

  /** endpoint_port_count() */
  method CountPorts(s: RegistryState, endpoint: Id) returns (count: U32)
    ensures count == EndpointPortCount(s, endpoint)
  {
    count := 0;
    var group := Group(s.endpoints, endpoint);
    var todo := group.Keys;
    while todo != {}
      invariant todo <= group.Keys
      invariant count in {0} + PortCounts(s, endpoint)
      invariant forall o :: o in group && o !in todo ==> group[o].value.portCount <= count
      decreases |todo|
    {
      var o :| o in todo;
      todo := todo - {o};
      if group[o].value.portCount > count {
        count := group[o].value.portCount;
      }
    }
    assert forall t :: t in PortCounts(s, endpoint) ==> t <= count;
    MaximumIs({0} + PortCounts(s, endpoint), count);
  }

  // ---- lifecycle_action_of() ----

  datatype Candidate = Candidate(action: LifecycleAction, authority: Authority, restores: bool)

  ghost function LifecycleCandidates(s: RegistryState, x: Id): set<Candidate>
  {
    var group := Group(s.lifecycles, x);
    set o | o in LifecycleOwners(s, x) :: Candidate(group[o].value.action, group[o].meta.authority, false)
  }

  ghost function ReincarnationCandidates(s: RegistryState, x: Id): set<Candidate>
  {
    var group := Group(s.reincarnations, x);
    set o | o in ReincarnationOwners(s, x) :: Candidate(Present, group[o].meta.authority, true)
  }

  method CollectLifecycles(s: RegistryState, x: Id, current: U64) returns (r: seq<Candidate>)
    requires current == IncarnationOf(s, x)
    ensures forall c :: c in r <==> c in LifecycleCandidates(s, x)
  {
    hide IncarnationOf, Fenced;
    r := [];
    var group := Group(s.lifecycles, x);
    var todo := group.Keys;
    while todo != {}
      invariant todo <= group.Keys
      invariant forall c :: c in r ==> c in LifecycleCandidates(s, x)
      invariant forall o :: o in LifecycleOwners(s, x) && o !in todo ==>
                Candidate(group[o].value.action, group[o].meta.authority, false) in r
      decreases |todo|
    {
      var o :| o in todo;
      todo := todo - {o};
      if !Fenced(s, o) && group[o].value.objectIncarnation == current {
        assert o in LifecycleOwners(s, x);
        r := r + [Candidate(group[o].value.action, group[o].meta.authority, false)];
      }
    }
  }

  method CollectReincarnations(s: RegistryState, x: Id, current: U64) returns (r: seq<Candidate>)
    requires current == IncarnationOf(s, x)
    ensures forall c :: c in r <==> c in ReincarnationCandidates(s, x)
  {
    hide IncarnationOf, Fenced;
    r := [];
    var group := Group(s.reincarnations, x);
    var todo := group.Keys;
    while todo != {}
      invariant todo <= group.Keys
      invariant forall c :: c in r ==> c in ReincarnationCandidates(s, x)
      invariant forall o :: o in ReincarnationOwners(s, x) && o !in todo ==>
                Candidate(Present, group[o].meta.authority, true) in r
      decreases |todo|
    {
      var o :| o in todo;
      todo := todo - {o};
      if !Fenced(s, o) && group[o].value.target == current {
        assert o in ReincarnationOwners(s, x);
        r := r + [Candidate(Present, group[o].meta.authority, true)];
      }
    }
  }

  method BestAuthority(cs: seq<Candidate>) returns (best: Authority)
    requires cs != []
    ensures exists c :: c in cs && c.authority == best
    ensures forall c :: c in cs ==> AuthorityRank(c.authority) <= AuthorityRank(best)
  {
    best := cs[0].authority;
    var i := 1;
    while i < |cs|
      invariant 1 <= i <= |cs|
      invariant exists c :: c in cs && c.authority == best
      invariant forall j :: 0 <= j < i ==> AuthorityRank(cs[j].authority) <= AuthorityRank(best)
    {
      if AuthorityRank(best) < AuthorityRank(cs[i].authority) {
        best := cs[i].authority;
        assert cs[i] in cs;
      }
      i := i + 1;
    }
  }

  /** The best authority has a candidate of this kind. */
  ghost predicate Saw(cs: seq<Candidate>, best: Authority, action: LifecycleAction, restores: bool)
  {
    Candidate(action, best, restores) in cs
  }

  method Weigh(cs: seq<Candidate>, best: Authority) returns (v: Verdict)
    ensures v == Combine(Saw(cs, best, Present, false) || Saw(cs, best, Present, true),
                         Saw(cs, best, Quarantined, false) || Saw(cs, best, Quarantined, true),
                         Saw(cs, best, Removed, false) || Saw(cs, best, Removed, true),
                         Saw(cs, best, Retired, false) || Saw(cs, best, Retired, true), Saw(cs, best, Present, true))
  {
    hide Combine;
    var present, quarantined, removed, retired, restored := false, false, false, false, false;
    var i := 0;
    while i < |cs|
      invariant 0 <= i <= |cs|
      invariant present == (Saw(cs[..i], best, Present, false) || Saw(cs[..i], best, Present, true))
      invariant quarantined == (Saw(cs[..i], best, Quarantined, false) || Saw(cs[..i], best, Quarantined, true))
      invariant removed == (Saw(cs[..i], best, Removed, false) || Saw(cs[..i], best, Removed, true))
      invariant retired == (Saw(cs[..i], best, Retired, false) || Saw(cs[..i], best, Retired, true))
      invariant restored == Saw(cs[..i], best, Present, true)
    {
      var c := cs[i];
      assert cs[..i + 1] == cs[..i] + [c];
      assert c == Candidate(c.action, c.authority, c.restores);
      if c.authority == best {
        match c.action
        case Present =>
          present := true;
          restored := restored || c.restores;
        case Quarantined => quarantined := true;
        case Removed => removed := true;
        case Retired => retired := true;
      }
      i := i + 1;
    }
    assert cs[..i] == cs;
    v := Combine(present, quarantined, removed, retired, restored);
  }

  ghost predicate Complete(s: RegistryState, x: Id, cs: seq<Candidate>)
  {
    forall c :: c in cs <==> c in LifecycleCandidates(s, x) || c in ReincarnationCandidates(s, x)
  }

  lemma CandidatesAuthorities(s: RegistryState, x: Id, cs: seq<Candidate>)
    requires Complete(s, x, cs)
    ensures forall c :: c in cs ==> c.authority in CandidateAuthorities(s, x)
    ensures forall a :: a in CandidateAuthorities(s, x) ==> exists c :: c in cs && c.authority == a
  {
    hide LifecycleOwners, ReincarnationOwners;
    forall a | a in CandidateAuthorities(s, x)
      ensures exists c :: c in cs && c.authority == a
    {
      if a in AuthoritiesOf(Group(s.lifecycles, x), LifecycleOwners(s, x)) {
        var o :| o in LifecycleOwners(s, x) && Group(s.lifecycles, x)[o].meta.authority == a;
        assert Candidate(Group(s.lifecycles, x)[o].value.action, a, false) in LifecycleCandidates(s, x);
      } else {
        var o :| o in ReincarnationOwners(s, x) && Group(s.reincarnations, x)[o].meta.authority == a;
        assert Candidate(Present, a, true) in ReincarnationCandidates(s, x);
      }
    }
  }

  lemma SawAsserted(s: RegistryState, x: Id, cs: seq<Candidate>, action: LifecycleAction)
    requires Complete(s, x, cs) && CandidateAuthorities(s, x) != {}
    ensures Saw(cs, BestLifecycleAuthority(s, x), action, false) == Asserted(s, x, action)
    ensures Saw(cs, BestLifecycleAuthority(s, x), action, true) == (action == Present && Restored(s, x))
  {
    hide LifecycleOwners, ReincarnationOwners, CandidateAuthorities;
  }

  method LifecycleActionOf(s: RegistryState, x: Id) returns (v: Verdict)
    ensures v == LifecycleOf(s, x)
  {
    hide LifecycleCandidates, ReincarnationCandidates, IncarnationOf, CandidateAuthorities, Asserted, Restored,
         Combine, AuthorityRank;
    var current := ObjectIncarnationOf(s, x);
    var a := CollectLifecycles(s, x, current);
    var b := CollectReincarnations(s, x, current);
    var cs := a + b;
    assert Complete(s, x, cs);
    CandidatesAuthorities(s, x, cs);
    if cs == [] {
      return Verdict(Present, false);
    }
    assert cs[0] in cs;
    var best := BestAuthority(cs);
    var top := BestLifecycleAuthority(s, x);
    AuthorityRankInjective(best, top);
    SawAsserted(s, x, cs, Present);
    SawAsserted(s, x, cs, Quarantined);
    SawAsserted(s, x, cs, Removed);
    SawAsserted(s, x, cs, Retired);
    v := Weigh(cs, best);
  }
}
