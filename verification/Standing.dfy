// What a port answers, from its records: which of them are live, which lead, and what the state,
// the edges, the notes and the citations then are.

module Standing {
  import opened Words
  import opened Evidence
  import opened Ordering
  import opened State
  import opened Lifecycle
  import opened Derive
  import opened Answers
  import Passes

  /**
    * The record counts: its owner is not fenced, the policy admits it, the object is registered, in
    * service and at the incarnation the record was made against, and if the slot is occupied its
    * owner's word on the side is this very record.
    */
  ghost predicate Live(s: RegistryState, policy: Policy, port: PortRef, key: SlotKey)
  {
    Has(s.ports, port, key) &&
    var f := s.ports[port][key];
    var side, x := f.value.subject, f.value.subject.objectId;
    && !Fenced(s, key.owner) && (policy.LiveOnly? ==> f.meta.inLifetime)
    && ObjectExists(s, x) && LifecycleOf(s, x).action == Present && f.value.objectIncarnation == IncarnationOf(s, x)
    && (!f.value.empty ==>
          && Has(s.subjects, side, key.owner)
          && var g := s.subjects[side][key.owner];
             && g.meta.generation == f.meta.generation && g.value.objectIncarnation == IncarnationOf(s, x)
             && g.value.attached && g.value.port == port && g.value.slot == key.slot)
  }

  /** No live record of the port has a higher authority. */
  ghost predicate Leading(s: RegistryState, policy: Policy, port: PortRef, key: SlotKey)
  {
    && Live(s, policy, port, key)
    && forall other :: Live(s, policy, port, other) ==>
                         AuthorityRank(s.ports[port][other].meta.authority)
                         <= AuthorityRank(s.ports[port][key].meta.authority)
  }

  lemma LiveExactly(s: RegistryState, policy: Policy, port: PortRef, key: SlotKey)
    ensures key in LiveSlots(s, policy, port) <==> Live(s, policy, port, key)
  {
    hide LifecycleOf, IncarnationOf;
  }

  lemma LeadingExactly(s: RegistryState, policy: Policy, port: PortRef)
    ensures SlotAuthorities(s, policy, port) != {} <==> exists key :: Live(s, policy, port, key)
    ensures SlotAuthorities(s, policy, port) != {} ==>
              && (forall key, empty :: key in TopSlots(s, policy, port, empty) <==>
                    Leading(s, policy, port, key) && s.ports[port][key].value.empty == empty)
              && (forall key :: key in OverriddenSlots(s, policy, port) <==>
                    Live(s, policy, port, key) && !Leading(s, policy, port, key))
              && (forall key :: Leading(s, policy, port, key) ==>
                    s.ports[port][key].meta.authority == PortAuthority(s, policy, port))
  {
    hide Live, SlotLive, AuthorityRank;
    forall key
      ensures key in LiveSlots(s, policy, port) <==> Live(s, policy, port, key)
    {
      LiveExactly(s, policy, port, key);
    }
    hide LiveSlots;
    var all := SlotAuthorities(s, policy, port);
    if key :| Live(s, policy, port, key) { assert s.ports[port][key].meta.authority in all; }
    if all != {} {
      var best := PortAuthority(s, policy, port);
      assert best in all;
      var some :| some in LiveSlots(s, policy, port) && s.ports[port][some].meta.authority == best;
      forall key | key in LiveSlots(s, policy, port)
        ensures Leading(s, policy, port, key) <==> s.ports[port][key].meta.authority == best
      {
        var a := s.ports[port][key].meta.authority;
        assert a in all;
        if Leading(s, policy, port, key) { AuthorityRankInjective(a, best); }
        if a == best {
          forall other | Live(s, policy, port, other)
            ensures AuthorityRank(s.ports[port][other].meta.authority) <= AuthorityRank(a)
          {
            assert s.ports[port][other].meta.authority in all;
          }
        }
      }
    }
  }

  /** The sides the leading records name. */
  ghost function LeadingSides(s: RegistryState, policy: Policy, port: PortRef): set<SideRef>
  {
    set key | key in Group(s.ports, port) && Leading(s, policy, port, key) && !s.ports[port][key].value.empty ::
      s.ports[port][key].value.subject
  }

  lemma SidesExactly(s: RegistryState, policy: Policy, port: PortRef)
    requires SlotAuthorities(s, policy, port) != {}
    ensures SubjectsAt(s, policy, port) == LeadingSides(s, policy, port)
  {
    hide Live, SlotAuthorities, LiveSlots, AuthorityRank;
    LeadingExactly(s, policy, port);
    hide TopSlots;
    forall key | key in TopSlots(s, policy, port, false)
      ensures key in Group(s.ports, port) && Leading(s, policy, port, key) && !s.ports[port][key].value.empty
    {
    }
  }

  /** Some leading record occupies its slot; some vacates it. */
  ghost predicate Occupied(s: RegistryState, policy: Policy, port: PortRef, empty: bool)
  {
    exists key :: Leading(s, policy, port, key) && s.ports[port][key].value.empty == empty
  }

  /** More sides than the port admits, or one that is double booked. */
  ghost predicate Contested(s: RegistryState, policy: Policy, port: PortRef)
  {
    || |LeadingSides(s, policy, port)| > CapabilityOf(s, port).maxAttachments
    || exists side :: side in LeadingSides(s, policy, port) && DoubleBooked(s, side, policy)
  }

  /**
    * All four answers.  Unknown: no record is live.  Empty: the leading records are vacancies.
    * Attached: they are occupied slots, of no more sides than the port admits, none double booked.
    * Conflicting: some of them is occupied, and one is a vacancy or the sides are contested.
    */
  lemma StateExactly(s: RegistryState, l: Limits, policy: Policy, port: PortRef)
    ensures var state := DerivePort(s, l, policy, port).state;
            var taken, left := Occupied(s, policy, port, false), Occupied(s, policy, port, true);
            && (state == Unknown <==> forall key :: !Live(s, policy, port, key))
            && (state == Empty <==> left && !taken)
            && (state == Attached <==> taken && !left && !Contested(s, policy, port))
            && (state == Conflicting <==> taken && (left || Contested(s, policy, port)))
  {
    hide DerivePort, Live, SlotAuthorities, LiveSlots, AuthorityRank, CapabilityOf, DoubleBooked, TopSlots, SubjectsAt;
    ViewState(s, l, policy, port);
    LeadingExactly(s, policy, port);
    if SlotAuthorities(s, policy, port) != {} {
      SidesExactly(s, policy, port);
      SomeLeads(s, policy, port);
      assert TopSlots(s, policy, port, false) != {} <==> Occupied(s, policy, port, false) by {
        if key :| key in TopSlots(s, policy, port, false) { assert Leading(s, policy, port, key); }
      }
      assert TopSlots(s, policy, port, true) != {} <==> Occupied(s, policy, port, true) by {
        if key :| key in TopSlots(s, policy, port, true) { assert Leading(s, policy, port, key); }
      }
    }
  }

  lemma SomeLeads(s: RegistryState, policy: Policy, port: PortRef)
    requires SlotAuthorities(s, policy, port) != {}
    ensures exists key :: Leading(s, policy, port, key)
  {
    hide Live, LiveSlots, AuthorityRank;
    LeadingExactly(s, policy, port);
    var best := PortAuthority(s, policy, port);
    var key :| key in LiveSlots(s, policy, port) && s.ports[port][key].meta.authority == best;
    assert key in TopSlots(s, policy, port, s.ports[port][key].value.empty);
  }

  // ---- Citations ----

  /** The sequence cites exactly the records of the given slots, once each, in claim order. */
  ghost predicate CitesExactly(s: RegistryState, port: PortRef, keys: set<SlotKey>, claims: seq<Attestation>)
    requires keys <= Group(s.ports, port).Keys
  {
    && |claims| == |keys| && NonDescending(claims, ClaimRank)
    && (forall m :: m in claims <==> exists key :: key in keys && Group(s.ports, port)[key].meta == m)
  }

  lemma SortedMetas(s: RegistryState, port: PortRef, q: seq<SlotKey>)
    requires forall i :: 0 <= i < |q| ==> q[i] in Group(s.ports, port)
    ensures var list := SortBy(SlotMetas(s, port, q), ClaimRank);
            && |list| == |q| && NonDescending(list, ClaimRank)
            && (forall m :: m in list <==> exists i :: 0 <= i < |q| && Group(s.ports, port)[q[i]].meta == m)
  {
    hide ClaimRank;
    var metas := SlotMetas(s, port, q);
    SortBySorts(metas, ClaimRank);
    SortByMembers(metas, ClaimRank);
    hide SortBy;
    forall m | m in metas
      ensures exists i :: 0 <= i < |q| && Group(s.ports, port)[q[i]].meta == m
    {
      var i :| 0 <= i < |metas| && metas[i] == m;
    }
    forall i | 0 <= i < |q|
      ensures Group(s.ports, port)[q[i]].meta in metas
    {
      assert metas[i] == Group(s.ports, port)[q[i]].meta;
    }
  }

  lemma CiteExactly(s: RegistryState, port: PortRef, keys: set<SlotKey>)
    requires keys <= Group(s.ports, port).Keys
    ensures CitesExactly(s, port, keys, Cite(s, port, keys))
  {
    hide ClaimRank, SlotRank, SlotMetas;
    var q := Sorted(keys, SlotRank);
    assert forall i :: 0 <= i < |q| ==> q[i] in q;
    SortedMetas(s, port, q);
    hide SortBy, Sorted;
    forall m | m in Cite(s, port, keys)
      ensures exists key :: key in keys && Group(s.ports, port)[key].meta == m
    {
      var i :| 0 <= i < |q| && Group(s.ports, port)[q[i]].meta == m;
    }
    forall key | key in keys
      ensures Group(s.ports, port)[key].meta in Cite(s, port, keys)
    {
      var i :| 0 <= i < |q| && q[i] == key;
    }
  }

  /** The leading slots that name the side. */
  ghost function SlotsNaming(s: RegistryState, policy: Policy, port: PortRef, side: SideRef): (r: set<SlotKey>)
    ensures r <= Group(s.ports, port).Keys
  {
    set key | key in Group(s.ports, port) && Leading(s, policy, port, key) && !s.ports[port][key].value.empty
              && s.ports[port][key].value.subject == side
  }

  ghost function SlotsStanding(s: RegistryState, policy: Policy, port: PortRef, leading: bool): (r: set<SlotKey>)
    ensures r <= Group(s.ports, port).Keys
  {
    set key | key in Group(s.ports, port) && Live(s, policy, port, key) && Leading(s, policy, port, key) == leading
  }

  ghost function Vacancies(s: RegistryState, policy: Policy, port: PortRef): (r: set<SlotKey>)
    ensures r <= Group(s.ports, port).Keys
  {
    set key | key in Group(s.ports, port) && Leading(s, policy, port, key) && s.ports[port][key].value.empty
  }

  /** Validated by all, by some, or by none of the records. */
  ghost predicate ValidatedBy(s: RegistryState, port: PortRef, keys: set<SlotKey>, v: Validation)
    requires keys <= Group(s.ports, port).Keys
  {
    && (v == Unvalidated <==> forall key :: key in keys ==> !Group(s.ports, port)[key].meta.inLifetime)
    && (v == Validated <==>
          keys != {} && forall key :: key in keys ==> Group(s.ports, port)[key].meta.inLifetime)
  }

  lemma ValidationExactly(s: RegistryState, port: PortRef, keys: set<SlotKey>)
    requires keys <= Group(s.ports, port).Keys
    ensures ValidatedBy(s, port, keys, SlotValidation(s, port, keys))
  {
    if keys != {} { var key :| key in keys; }
  }

  lemma NamingExactly(s: RegistryState, policy: Policy, port: PortRef, side: SideRef)
    requires SlotAuthorities(s, policy, port) != {}
    ensures SlotsOf(s, policy, port, side) == SlotsNaming(s, policy, port, side)
    ensures OverriddenSlots(s, policy, port) == SlotsStanding(s, policy, port, false)
    ensures TopSlots(s, policy, port, true) == Vacancies(s, policy, port)
    ensures TopSlots(s, policy, port, false) + TopSlots(s, policy, port, true) == SlotsStanding(s, policy, port, true)
  {
    hide Live, SlotAuthorities, LiveSlots, AuthorityRank;
    LeadingExactly(s, policy, port);
    forall key | key in OverriddenSlots(s, policy, port)
      ensures key in Group(s.ports, port)
    {
      assert key in LiveSlots(s, policy, port);
    }
    hide TopSlots, OverriddenSlots;
    assert forall key :: Leading(s, policy, port, key) ==> Live(s, policy, port, key);
  }

  // ---- Edges ----

  /** The n lowest of the slots, or all of them. */
  ghost predicate FirstOnes(over: set<SlotKey>, kept: set<SlotKey>, n: nat)
  {
    && kept <= over && |kept| == (if |over| <= n then |over| else n)
    && forall a, b :: a in kept && b in over - kept ==> SlotRank(a) < SlotRank(b)
  }

  /** The list cites the n lowest of the slots. */
  ghost predicate Reported(s: RegistryState, port: PortRef, over: set<SlotKey>, n: nat, list: seq<Attestation>)
    requires over <= Group(s.ports, port).Keys
  {
    exists kept :: FirstOnes(over, kept, n) && CitesExactly(s, port, kept, list)
  }

  /**
    * An edge tells of its side at this port: the leading authority, the records that name it and
    * whether they were heard in this lifetime, the last slot they name, the incarnation they were made
    * against, how the declared connectors and media match, and how many records were overridden.
    */
  ghost predicate EdgeTells(s: RegistryState, l: Limits, policy: Policy, port: PortRef, side: SideRef, e: Edge)
  {
    var keys := SlotsNaming(s, policy, port, side);
    var over := SlotsStanding(s, policy, port, false);
    var d, c := SideDescriptorOf(s, side), CapabilityOf(s, port);
    && e.subject == side && e.port == port && keys != {}
    && (forall key :: key in keys ==>
          e.authority == Group(s.ports, port)[key].meta.authority
          && e.incarnation == Group(s.ports, port)[key].value.objectIncarnation)
    && CitesExactly(s, port, keys, e.claims) && ValidatedBy(s, port, keys, e.validation)
    && (exists key :: key in keys && key.slot == e.slot
          && forall other :: other in keys ==> SlotRank(other) <= SlotRank(key))
    && (e.connectorCompatible <==> c.connector == d.connector || CONNECTOR_UNKNOWN in {c.connector, d.connector})
    && (e.mediaCompatible <==> c.media == d.media || MEDIA_UNKNOWN in {c.media, d.media})
    && (e.conflicting <==> DerivePort(s, l, policy, port).state == Conflicting)
    && e.overriddenTotal == |over|
    && Reported(s, port, over, l.maxOverridden, e.overridden)
  }

  lemma LastExactly(keys: set<SlotKey>)
    requires keys != {}
    ensures var last := LastSlot(keys);
            last in keys && forall other :: other in keys ==> SlotRank(other) <= SlotRank(last)
  {
    hide SlotRank;
    SlotRankInjective();
    var ordered := Sorted(keys, SlotRank);
    SortedAscends(keys, SlotRank);
    hide Sorted;
    var last := ordered[|ordered| - 1];
    forall other | other in keys
      ensures SlotRank(other) <= SlotRank(last)
    {
      var i :| 0 <= i < |ordered| && ordered[i] == other;
    }
  }

  lemma SlotRankInjective()
    ensures Injective(SlotRank)
  {
    Passes.RanksInjective();
  }

  lemma FirstExactly(over: set<SlotKey>, n: nat) returns (kept: set<SlotKey>)
    ensures var q := FirstOf(Sorted(over, SlotRank), n);
            FirstOnes(over, kept, n) && |kept| == |q| && (forall key :: key in kept <==> key in q)
  {
    hide SlotRank;
    SlotRankInjective();
    SortedAscends(over, SlotRank);
    var all := Sorted(over, SlotRank);
    hide Sorted;
    if |all| <= n { return over; }
    kept := LowerPart(all, over, n);
  }

  lemma LowerPart(all: seq<SlotKey>, over: set<SlotKey>, n: nat) returns (kept: set<SlotKey>)
    requires Ascending(all, SlotRank) && n < |all| == |over| && (forall key :: key in all <==> key in over)
    ensures FirstOnes(over, kept, n) && |kept| == n && (forall key :: key in kept <==> key in all[..n])
  {
    hide SlotRank;
    var q := all[..n];
    kept := set i | 0 <= i < |q| :: q[i];
    assert forall key :: key in kept <==> key in q;
    Distinct(q);
    assert forall i :: 0 <= i < |q| ==> q[i] == all[i] && q[i] in over;
    forall a, b | a in kept && b in over - kept
      ensures SlotRank(a) < SlotRank(b)
    {
      var i :| 0 <= i < |q| && q[i] == a;
      var j :| 0 <= j < |all| && all[j] == b;
    }
  }

  lemma {:induction false} Distinct(q: seq<SlotKey>)
    requires Ascending(q, SlotRank)
    ensures |set i | 0 <= i < |q| :: q[i]| == |q|
  {
    hide SlotRank;
    var all := set i | 0 <= i < |q| :: q[i];
    if q != [] {
      var init, last := q[..|q| - 1], q[|q| - 1];
      Distinct(init);
      var some := set i | 0 <= i < |init| :: init[i];
      assert last !in some;
      forall key | key in all
        ensures key in some + {last}
      {
        var i :| 0 <= i < |q| && q[i] == key;
        if i < |init| { assert init[i] == key; }
      }
      forall key | key in some
        ensures key in all
      {
        var i :| 0 <= i < |init| && init[i] == key;
        assert q[i] == key;
      }
      assert all == some + {last};
    }
  }

  lemma ListReported(s: RegistryState, port: PortRef, over: set<SlotKey>, n: nat)
    requires over <= Group(s.ports, port).Keys
    ensures var q := FirstOf(Sorted(over, SlotRank), n);
            && (forall i :: 0 <= i < |q| ==> q[i] in Group(s.ports, port))
            && Reported(s, port, over, n, SortBy(SlotMetas(s, port, q), ClaimRank))
  {
    hide ClaimRank, SlotRank, SlotMetas, FirstOf, Sorted;
    var kept := FirstExactly(over, n);
    var q := FirstOf(Sorted(over, SlotRank), n);
    assert forall i :: 0 <= i < |q| ==> q[i] in q;
    SortedMetas(s, port, q);
    var list := SortBy(SlotMetas(s, port, q), ClaimRank);
    hide SortBy;
    MembersCited(s, port, kept, q, list);
  }

  lemma OverriddenExactly(s: RegistryState, l: Limits, policy: Policy, port: PortRef)
    requires SlotAuthorities(s, policy, port) != {}
    ensures var over := OverriddenSlots(s, policy, port);
            over <= Group(s.ports, port).Keys
            && Reported(s, port, over, l.maxOverridden, OverriddenList(s, l, policy, port))
  {
    hide ClaimRank, SlotRank, SlotAuthorities, SlotMetas, FirstOf, Sorted, Reported, SortBy;
    var over := OverriddenSlots(s, policy, port);
    assert forall key :: key in over ==> key in LiveSlots(s, policy, port);
    ListReported(s, port, over, l.maxOverridden);
  }

  lemma MembersCited(s: RegistryState, port: PortRef, keys: set<SlotKey>, q: seq<SlotKey>, list: seq<Attestation>)
    requires keys <= Group(s.ports, port).Keys && |keys| == |q| == |list| && (forall key :: key in keys <==> key in q)
    requires NonDescending(list, ClaimRank)
    requires forall i :: 0 <= i < |q| ==> q[i] in keys
    requires forall m :: m in list <==> exists i :: 0 <= i < |q| && Group(s.ports, port)[q[i]].meta == m
    ensures CitesExactly(s, port, keys, list)
  {
    forall m | m in list
      ensures exists key :: key in keys && Group(s.ports, port)[key].meta == m
    {
      var i :| 0 <= i < |q| && Group(s.ports, port)[q[i]].meta == m;
    }
    forall key | key in keys
      ensures Group(s.ports, port)[key].meta in list
    {
      var i :| 0 <= i < |q| && q[i] == key;
    }
  }

  lemma EdgeExactly(s: RegistryState, l: Limits, policy: Policy, port: PortRef, side: SideRef)
    requires SlotAuthorities(s, policy, port) != {} && side in SubjectsAt(s, policy, port)
    ensures EdgeTells(s, l, policy, port, side, EdgeOf(s, l, policy, port, side))
  {
    hide Live, SlotAuthorities, LiveSlots, AuthorityRank, CapabilityOf, SideDescriptorOf, StateOf, DerivePort, Cite,
         SlotValidation, OverriddenList, SlotRank, ClaimRank, SlotsOf, TopSlots, OverriddenSlots, SlotsStanding,
         LastSlot, CitesExactly, ValidatedBy, IncarnationOf, Reported;
    var keys := SlotsOf(s, policy, port, side);
    ViewState(s, l, policy, port);
    NamingExactly(s, policy, port, side);
    LeadingExactly(s, policy, port);
    CiteExactly(s, port, keys);
    ValidationExactly(s, port, keys);
    LastExactly(keys);
    OverriddenExactly(s, l, policy, port);
    forall key | key in keys
      ensures s.ports[port][key].value.objectIncarnation == IncarnationOf(s, side.objectId)
    {
      LiveIncarnation(s, policy, port, key);
    }
  }

  lemma LiveIncarnation(s: RegistryState, policy: Policy, port: PortRef, key: SlotKey)
    requires Live(s, policy, port, key)
    ensures s.ports[port][key].value.objectIncarnation == IncarnationOf(s, s.ports[port][key].value.subject.objectId)
  {
    hide IncarnationOf, LifecycleOf;
  }

  /** The edges are those of the sides the leading records name, one each, in order. */
  lemma EdgesExactly(s: RegistryState, l: Limits, policy: Policy, port: PortRef)
    ensures var edges := DerivePort(s, l, policy, port).edges;
            var sides := Sorted(LeadingSides(s, policy, port), SideRank);
            |edges| == |sides| && forall i :: 0 <= i < |edges| ==> EdgeTells(s, l, policy, port, sides[i], edges[i])
  {
    hide EdgeTells, EdgeOf, SlotAuthorities, TopSlots, SubjectsAt, LeadingSides, SideRank, StateOf, CapabilityOf, Cite,
         SlotValidation, ConflictNotes, EdgeNotes, Leading;
    if SlotAuthorities(s, policy, port) == {} {
      NothingLeads(s, policy, port);
    } else {
      SidesExactly(s, policy, port);
      var sides := Sorted(SubjectsAt(s, policy, port), SideRank);
      if TopSlots(s, policy, port, false) == {} {
        NobodyThere(s, policy, port);
      } else {
        assert DerivePort(s, l, policy, port).edges == EdgesOf(s, l, policy, port, sides);
        forall i | 0 <= i < |sides|
          ensures EdgeTells(s, l, policy, port, sides[i], EdgesOf(s, l, policy, port, sides)[i])
        {
          assert sides[i] in sides;
          EdgeExactly(s, l, policy, port, sides[i]);
        }
      }
    }
  }

  lemma NothingLeads(s: RegistryState, policy: Policy, port: PortRef)
    requires SlotAuthorities(s, policy, port) == {}
    ensures LeadingSides(s, policy, port) == {} && SlotsStanding(s, policy, port, true) == {}
    ensures Vacancies(s, policy, port) == {}
  {
    hide Live, SlotAuthorities;
    LeadingExactly(s, policy, port);
  }

  lemma NobodyThere(s: RegistryState, policy: Policy, port: PortRef)
    requires SlotAuthorities(s, policy, port) != {} && TopSlots(s, policy, port, false) == {}
    ensures SubjectsAt(s, policy, port) == {}
  {
  }

  // ---- The rest of the view ----

  /** Every leading record validates the view; the vacancies are cited as emptiness claims. */
  lemma RestExactly(s: RegistryState, l: Limits, policy: Policy, port: PortRef)
    ensures var view := DerivePort(s, l, policy, port);
            && view.port == port
            && ValidatedBy(s, port, SlotsStanding(s, policy, port, true), view.validation)
            && CitesExactly(s, port, Vacancies(s, policy, port), view.emptinessClaims)
  {
    hide SlotAuthorities, TopSlots, SubjectsAt, StateOf, CapabilityOf, Cite, SlotValidation, ConflictNotes, EdgeNotes,
         EdgesOf, Leading, SlotsStanding, Vacancies, CitesExactly, ValidatedBy, Sorted;
    if SlotAuthorities(s, policy, port) == {} {
      NothingLeads(s, policy, port);
      NothingCited(s, port);
    } else {
      NamingExactly(s, policy, port, SideRef(0, 0));
      CiteExactly(s, port, TopSlots(s, policy, port, true));
      ValidationExactly(s, port, TopSlots(s, policy, port, false) + TopSlots(s, policy, port, true));
    }
  }

  lemma NothingCited(s: RegistryState, port: PortRef)
    ensures CitesExactly(s, port, {}, []) && ValidatedBy(s, port, {}, Unvalidated)
  {
  }

  // ---- Notes ----

  /** A declared mismatch of an edge. */
  predicate Mismatch(e: Edge, n: Note)
  {
    || (!e.connectorCompatible && n == Note(IncompatibleConnector, Some(e.subject), Some(e.port), e.claims))
    || (!e.mediaCompatible && n == Note(IncompatibleMedia, Some(e.subject), Some(e.port), e.claims))
  }

  /** Why the port conflicts. */
  ghost predicate Dispute(s: RegistryState, policy: Policy, port: PortRef, n: Note)
  {
    var all := SlotsStanding(s, policy, port, true);
    var taken := all - Vacancies(s, policy, port);
    || (n.reason == TooManyAttachments && n.subject == None && n.port == Some(port)
        && |LeadingSides(s, policy, port)| > CapabilityOf(s, port).maxAttachments
        && CitesExactly(s, port, taken, n.claims))
    || (n.reason == EmptyAndOccupied && n.subject == None && n.port == Some(port)
        && Vacancies(s, policy, port) != {} && CitesExactly(s, port, all, n.claims))
    || exists side ::
         && side in LeadingSides(s, policy, port) && DoubleBooked(s, side, policy)
         && n == BookedNote(s, policy, port, side)
  }

  ghost function BookedNote(s: RegistryState, policy: Policy, port: PortRef, side: SideRef): Note
  {
    Note(ObjectSideDoubleBooked, Some(side), Some(port), SortBy(DeriveSide(s, side, policy).top, ClaimRank))
  }

  lemma {:induction false} MismatchNotes(edges: seq<Edge>, n: Note)
    ensures n in EdgeNotes(edges) <==> exists i :: 0 <= i < |edges| && Mismatch(edges[i], n)
  {
    if edges != [] {
      MismatchNotes(edges[1..], n);
      if i :| 0 <= i < |edges| && Mismatch(edges[i], n) {
        if i > 0 { assert Mismatch(edges[1..][i - 1], n); }
      }
      if i :| 0 <= i < |edges[1..]| && Mismatch(edges[1..][i], n) { assert Mismatch(edges[i + 1], n); }
    }
  }

  lemma {:induction false} BookingExactly(s: RegistryState, policy: Policy, port: PortRef, sides: seq<SideRef>, n: Note)
    ensures n in BookingNotes(s, policy, port, sides) <==>
            exists side :: side in sides && DoubleBooked(s, side, policy) && n == BookedNote(s, policy, port, side)
    decreases |sides|
  {
    hide DoubleBooked, DeriveSide, SortBy, ClaimRank;
    if sides != [] {
      BookingExactly(s, policy, port, sides[1..], n);
    }
  }

  lemma DisputeExactly(s: RegistryState, policy: Policy, port: PortRef, n: Note)
    requires SlotAuthorities(s, policy, port) != {}
    ensures n in ConflictNotes(s, policy, port) ==> Dispute(s, policy, port, n)
    ensures Dispute(s, policy, port, n) ==>
              exists m :: m in ConflictNotes(s, policy, port) && m.reason == n.reason && m.subject == n.subject
                && m.port == n.port
  {
    hide DoubleBooked, DeriveSide, SortBy, ClaimRank, SlotAuthorities, TopSlots, SubjectsAt, CapabilityOf, Cite,
         BookingNotes, LeadingSides, SlotsStanding, Vacancies, CitesExactly, SideRank, Sorted;
    var occupied, vacant := TopSlots(s, policy, port, false), TopSlots(s, policy, port, true);
    var sides := Sorted(SubjectsAt(s, policy, port), SideRank);
    SidesExactly(s, policy, port);
    NamingExactly(s, policy, port, SideRef(0, 0));
    ApartExactly(s, policy, port);
    CiteExactly(s, port, occupied);
    CiteExactly(s, port, occupied + vacant);
    BookingExactly(s, policy, port, sides, n);
    var a := if |SubjectsAt(s, policy, port)| > CapabilityOf(s, port).maxAttachments
      then [Note(TooManyAttachments, None, Some(port), Cite(s, port, occupied))] else [];
    var b := if vacant != {} then [Note(EmptyAndOccupied, None, Some(port), Cite(s, port, occupied + vacant))] else [];
    var c := BookingNotes(s, policy, port, sides);
    assert ConflictNotes(s, policy, port) == a + b + c;
    assert n in a + b + c <==> n in a || n in b || n in c;
    if Dispute(s, policy, port, n) {
      if n.reason == TooManyAttachments { assert a[0] in a + b + c; }
      if n.reason == EmptyAndOccupied { assert b[0] in a + b + c; }
    }
  }

  lemma ApartExactly(s: RegistryState, policy: Policy, port: PortRef)
    requires SlotAuthorities(s, policy, port) != {}
    ensures TopSlots(s, policy, port, false) ==
            TopSlots(s, policy, port, false) + TopSlots(s, policy, port, true) - TopSlots(s, policy, port, true)
  {
  }

  /** Every note of the view is a mismatch of an edge or a dispute at the port, and none of them is missing. */
  lemma NotesExactly(s: RegistryState, l: Limits, policy: Policy, port: PortRef, n: Note)
    requires Occupied(s, policy, port, false)
    ensures var view := DerivePort(s, l, policy, port);
            var mismatch := exists i :: 0 <= i < |view.edges| && Mismatch(view.edges[i], n);
            && (n in view.conflicts ==> mismatch || Dispute(s, policy, port, n))
            && (mismatch ==> n in view.conflicts)
            && (Dispute(s, policy, port, n) ==>
                  exists m :: m in view.conflicts && m.reason == n.reason && m.subject == n.subject && m.port == n.port)
  {
    hide Mismatch, Dispute, SlotAuthorities, TopSlots, SubjectsAt, StateOf, CapabilityOf, Cite, SlotValidation,
         ConflictNotes, EdgeNotes, EdgesOf, Leading, Sorted, SideRank;
    LeadingExactly(s, policy, port);
    var view := DerivePort(s, l, policy, port);
    SomeoneThere(s, policy, port);
    DisputeExactly(s, policy, port, n);
    MismatchNotes(view.edges, n);
    assert view.conflicts == EdgeNotes(view.edges) + ConflictNotes(s, policy, port);
    if Dispute(s, policy, port, n) {
      var m :| m in ConflictNotes(s, policy, port) && m.reason == n.reason && m.subject == n.subject
           && m.port == n.port;
      assert m in view.conflicts;
    }
  }

  lemma SomeoneThere(s: RegistryState, policy: Policy, port: PortRef)
    ensures Occupied(s, policy, port, false) <==>
            SlotAuthorities(s, policy, port) != {} && TopSlots(s, policy, port, false) != {}
  {
    hide LifecycleOf, IncarnationOf, SlotAuthorities, TopSlots, AuthorityRank;
    LeadingExactly(s, policy, port);
    if key :| Leading(s, policy, port, key) && s.ports[port][key].value.empty == false {
      assert key in TopSlots(s, policy, port, false);
    }
    if SlotAuthorities(s, policy, port) != {} && TopSlots(s, policy, port, false) != {} {
      var key :| key in TopSlots(s, policy, port, false);
      assert Leading(s, policy, port, key);
    }
  }

  /** Nobody leads with an occupied slot: no notes. */
  lemma NoNotes(s: RegistryState, l: Limits, policy: Policy, port: PortRef)
    requires !Occupied(s, policy, port, false)
    ensures DerivePort(s, l, policy, port).conflicts == []
  {
    hide SlotAuthorities, TopSlots, SubjectsAt, StateOf, CapabilityOf, Cite, SlotValidation, ConflictNotes, EdgeNotes,
         EdgesOf, Leading, Sorted;
    SomeoneThere(s, policy, port);
  }
}
