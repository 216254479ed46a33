// The derivation as the registry runs it: passes over the records of a key in map order, with
// running maxima, flags and growing lists.  Each pass is proved to compute its specification.

// Ordered passes over a finite map.
module Passes {
  import opened Words
  import opened Evidence
  import opened Ordering
  import opened State

  lemma RanksInjective()
    ensures Injective(OwnerRank) && Injective(PortRank) && Injective(SideRank) && Injective(SlotRank)
  {
  }

  lemma AscendingAppend<K>(q: seq<K>, k: K, rank: K -> int)
    requires Ascending(q, rank) && forall x :: x in q ==> rank(x) < rank(k)
    ensures Ascending(q + [k], rank)
  {
    assert forall i :: 0 <= i < |q| ==> q[i] in q;
  }

  lemma AscendingBefore<K>(q: seq<K>, i: nat, rank: K -> int)
    requires Ascending(q, rank) && i < |q|
    ensures forall x :: x in q[..i] ==> rank(x) < rank(q[i])
  {
  }

  /** The keys of a map in the order its iterator visits them. */
  method InOrder<K(==, !new)>(s: set<K>, rank: K -> int) returns (q: seq<K>)
    requires Injective(rank)
    ensures q == Sorted(s, rank) && Ascending(q, rank)
  {
    q := [];
    var todo := s;
    while todo != {}
      invariant todo <= s && Ascending(q, rank)
      invariant forall k :: k in q <==> k in s && k !in todo
      invariant forall x, y :: x in q && y in todo ==> rank(x) < rank(y)
      decreases |todo|
    {
      LeastExists(todo, rank);
      var k :| k in todo && forall x :: x in todo ==> rank(k) <= rank(x);
      AscendingAppend(q, k, rank);
      q := q + [k];
      todo := todo - {k};
    }
    SortedAscends(s, rank);
    AscendingUnique(q, Sorted(s, rank), rank);
  }

  /** r lists, in order, exactly the first i keys of q that are in the set. */
  ghost predicate Kept<K(!new)>(q: seq<K>, i: nat, chosen: set<K>, r: seq<K>, rank: K -> int)
    requires i <= |q|
  {
    Ascending(r, rank) && forall k :: k in r <==> k in q[..i] && k in chosen
  }

  lemma KeptNone<K(!new)>(q: seq<K>, chosen: set<K>, rank: K -> int)
    ensures Kept(q, 0, chosen, [], rank)
  {
  }

  lemma KeepNext<K(!new)>(q: seq<K>, i: nat, chosen: set<K>, r: seq<K>, rank: K -> int)
    requires i < |q| && Ascending(q, rank) && Kept(q, i, chosen, r, rank)
    ensures Kept(q, i + 1, chosen, if q[i] in chosen then r + [q[i]] else r, rank)
  {
    assert q[..i + 1] == q[..i] + [q[i]];
    AscendingBefore(q, i, rank);
    if q[i] in chosen { AscendingAppend(r, q[i], rank); }
  }

  lemma KeptAll<K(!new)>(q: seq<K>, chosen: set<K>, r: seq<K>, rank: K -> int)
    requires Injective(rank) && Kept(q, |q|, chosen, r, rank) && forall k :: k in chosen ==> k in q
    ensures r == Sorted(chosen, rank)
  {
    assert q[..|q|] == q;
    SortedAscends(chosen, rank);
    AscendingUnique(r, Sorted(chosen, rank), rank);
  }

  /** std::sort, then std::unique. */
  method SortUnique<K(==, !new)>(q: seq<K>, rank: K -> int, ghost members: set<K>) returns (r: seq<K>)
    requires Injective(rank) && forall k :: k in q <==> k in members
    ensures r == Sorted(members, rank)
  {
    var p := SortBy(q, rank);
    SortBySorts(q, rank);
    SortByMembers(q, rank);
    r := [];
    for i := 0 to |p|
      invariant Ascending(r, rank)
      invariant forall k :: k in r <==> k in p[..i]
      invariant r != [] ==> i > 0 && r[|r| - 1] == p[i - 1]
      invariant r == [] ==> i == 0
    {
      assert p[..i + 1] == p[..i] + [p[i]];
      if r == [] || r[|r| - 1] != p[i] {
        forall x | x in r
          ensures rank(x) < rank(p[i])
        {
          SmallerEarlier(p, r, i, x, rank);
        }
        AscendingAppend(r, p[i], rank);
        r := r + [p[i]];
      }
    }
    assert p[..|p|] == p;
    SortedAscends(members, rank);
    AscendingUnique(r, Sorted(members, rank), rank);
  }

  lemma SmallerEarlier<K(!new)>(p: seq<K>, r: seq<K>, i: nat, x: K, rank: K -> int)
    requires Injective(rank) && NonDescending(p, rank) && Ascending(r, rank) && 0 < i < |p|
    requires r != [] && r[|r| - 1] == p[i - 1] && p[i - 1] != p[i] && x in r
    ensures rank(x) < rank(p[i])
  {
    var j :| 0 <= j < |r| && r[j] == x;
    assert rank(p[i - 1]) <= rank(p[i]);
    assert rank(p[i - 1]) != rank(p[i]);
  }
}

// Catalogue lookups: the best registration, and what a port admits.
module CatalogueLoops {
  import opened Words
  import opened Evidence
  import opened Ordering
  import opened State
  import opened Lifecycle
  import opened Derive
  import opened Passes

  /** Of higher authority, or of the same and a lower owner, or the same record. */
  predicate Prevails<V>(group: map<Owner, Folded<V>>, o: Owner, p: Owner)
    requires o in group && p in group
  {
    || AuthorityRank(group[p].meta.authority) < AuthorityRank(group[o].meta.authority)
    || (group[p].meta.authority == group[o].meta.authority && OwnerRank(o) <= OwnerRank(p))
  }

  lemma BestIs(authorities: set<Authority>, best: Authority)
    requires best in authorities && forall a :: a in authorities ==> AuthorityRank(a) <= AuthorityRank(best)
    ensures BestOf(authorities) == best
  {
    AuthorityRankInjective(BestOf(authorities), best);
  }

  lemma WinnerIs<V>(group: map<Owner, Folded<V>>, owners: set<Owner>, o: Owner)
    requires owners <= group.Keys && o in owners && forall p :: p in owners ==> Prevails(group, o, p)
    ensures WinningOwner(group, owners) == o
  {
    hide AuthorityRank, BestOf;
    RanksInjective();
    var authorities := set p | p in owners :: group[p].meta.authority;
    assert group[o].meta.authority in authorities;
    BestIs(authorities, group[o].meta.authority);
  }

  /** The record to prefer over the one chosen so far. */
  predicate Better<V>(group: map<Owner, Folded<V>>, chosen: Option<Owner>, p: Owner)
    requires p in group && (chosen.Some? ==> chosen.value in group)
  {
    || chosen.None? || Below(group[chosen.value].meta.authority, group[p].meta.authority)
    || (group[chosen.value].meta.authority == group[p].meta.authority && OwnerRank(p) < OwnerRank(chosen.value))
  }

  /** The owner chosen so far prevails over every one seen. */
  ghost predicate Leads<V>(group: map<Owner, Folded<V>>, seen: set<Owner>, chosen: Option<Owner>)
  {
    && seen <= group.Keys && (chosen.None? <==> seen == {})
    && (chosen.Some? ==> chosen.value in seen && forall p :: p in seen ==> Prevails(group, chosen.value, p))
  }

  lemma LeadNext<V>(group: map<Owner, Folded<V>>, seen: set<Owner>, chosen: Option<Owner>, p: Owner)
    requires Leads(group, seen, chosen) && p in group
    ensures Leads(group, seen + {p}, if Better(group, chosen, p) then Some(p) else chosen)
  {
    if !Better(group, chosen, p) && AuthorityRank(group[chosen.value].meta.authority) ==
      AuthorityRank(group[p].meta.authority) {
      AuthorityRankInjective(group[chosen.value].meta.authority, group[p].meta.authority);
    }
  }

  lemma LeadWins<V>(group: map<Owner, Folded<V>>, owners: set<Owner>, chosen: Option<Owner>)
    requires Leads(group, owners, chosen) && owners != {}
    ensures chosen == Some(WinningOwner(group, owners))
  {
    hide WinningOwner, Prevails;
    WinnerIs(group, owners, chosen.value);
  }

  /** winning_registration() and winning_endpoint(): one pass over every registration. */
  method WinningRecord<V>(group: map<Owner, Folded<V>>) returns (chosen: Option<Owner>)
    ensures chosen == if group.Keys == {} then None else Some(WinningOwner(group, group.Keys))
  {
    hide WinningOwner, Leads, Better, Sorted;
    chosen := None;
    RanksInjective();
    var q := InOrder(group.Keys, OwnerRank);
    ghost var seen: set<Owner> := {};
    LeadNone(group);
    for i := 0 to |q|
      invariant seen <= group.Keys && Leads(group, seen, chosen) && (chosen.Some? ==> chosen.value in group)
      invariant forall j :: 0 <= j < i ==> q[j] in seen
    {
      assert q[i] in q;
      LeadNext(group, seen, chosen, q[i]);
      seen := seen + {q[i]};
      if Better(group, chosen, q[i]) { chosen := Some(q[i]); }
    }
    assert seen == group.Keys;
    if group.Keys == {} { LeadNobody(group, chosen); } else { LeadWins(group, seen, chosen); }
  }

  lemma LeadNone<V>(group: map<Owner, Folded<V>>)
    ensures Leads(group, {}, None)
  {
  }

  lemma LeadNobody<V>(group: map<Owner, Folded<V>>, chosen: Option<Owner>)
    requires Leads(group, {}, chosen)
    ensures chosen == None
  {
  }

  // ---- port_capability_of() ----

  /** The smallest attachment count among the records seen at the chosen one's authority. */
  ghost predicate Smallest(group: map<Owner, Folded<PortCapability>>, seen: set<Owner>, chosen: Owner, minimum: U32)
    requires seen <= group.Keys && chosen in seen
  {
    var best := group[chosen].meta.authority;
    && (exists w :: w in seen && group[w].meta.authority == best && group[w].value.maxAttachments == minimum)
    && (forall w :: w in seen && group[w].meta.authority == best ==> minimum <= group[w].value.maxAttachments)
  }

  lemma SmallestFresh(group: map<Owner, Folded<PortCapability>>, seen: set<Owner>, chosen: Option<Owner>, p: Owner)
    requires Leads(group, seen, chosen) && p in group
    requires chosen.None? || Below(group[chosen.value].meta.authority, group[p].meta.authority)
    ensures Smallest(group, seen + {p}, p, group[p].value.maxAttachments)
  {
    assert p in seen + {p};
  }

  lemma SmallestEqual(group: map<Owner, Folded<PortCapability>>, seen: set<Owner>, chosen: Owner, minimum: U32,
                      p: Owner, next: Owner)
    requires seen <= group.Keys && chosen in seen && p in group && Smallest(group, seen, chosen, minimum)
    requires group[p].meta.authority == group[chosen].meta.authority && (next == chosen || next == p)
    ensures Smallest(group, seen + {p}, next, if group[p].value.maxAttachments < minimum
            then group[p].value.maxAttachments else minimum)
  {
    var w :| w in seen && group[w].meta.authority == group[chosen].meta.authority
      && group[w].value.maxAttachments == minimum;
    assert w in seen + {p} && p in seen + {p};
  }

  lemma SmallestLower(group: map<Owner, Folded<PortCapability>>, seen: set<Owner>, chosen: Owner, minimum: U32,
                      p: Owner)
    requires seen <= group.Keys && chosen in seen && p in group && Smallest(group, seen, chosen, minimum)
    requires group[p].meta.authority != group[chosen].meta.authority
    ensures Smallest(group, seen + {p}, chosen, minimum)
  {
    var w :| w in seen && group[w].meta.authority == group[chosen].meta.authority
      && group[w].value.maxAttachments == minimum;
    assert w in seen + {p};
  }

  lemma CapabilityIs(s: RegistryState, port: PortRef, chosen: Owner, minimum: U32)
    requires var group := Group(s.portCapabilities, port);
             var owners := Unfenced(s, group);
             chosen in owners && WinningOwner(group, owners) == chosen && Smallest(group, owners, chosen, minimum)
    ensures CapabilityOf(s, port) == Group(s.portCapabilities, port)[chosen].value.(maxAttachments := if minimum == 0
            then 1 else minimum)
  {
    hide WinningOwner, Fenced;
    var group := Group(s.portCapabilities, port);
    var owners := Unfenced(s, group);
    var counts: set<U32> := set w | w in TopOwners(group, owners) :: group[w].value.maxAttachments;
    var w :| w in owners && group[w].meta.authority == group[chosen].meta.authority
      && group[w].value.maxAttachments == minimum;
    assert w in TopOwners(group, owners) && minimum in counts;
    assert Least(counts, CountRank) == minimum;
  }

  /** The best published capability, in one pass. */
  method PublishedCapability(s: RegistryState, port: PortRef) returns (chosen: Option<Owner>, minimum: U32)
    ensures chosen.None? <==> Unfenced(s, Group(s.portCapabilities, port)) == {}
    ensures chosen.Some? ==>
              && chosen.value in Group(s.portCapabilities, port)
              && CapabilityOf(s, port) == Group(s.portCapabilities,
                port)[chosen.value].value.(maxAttachments := if minimum == 0 then 1 else minimum)
  {
    hide WinningOwner, Leads, Sorted, Smallest, CapabilityOf, Below, Fenced;
    var group := Group(s.portCapabilities, port);
    RanksInjective();
    var q := InOrder(group.Keys, OwnerRank);
    ghost var seen: set<Owner> := {};
    var best := NO_AUTHORITY;
    chosen, minimum := None, 0;
    LeadNone(group);
    for i := 0 to |q|
      invariant seen <= group.Keys && Leads(group, seen, chosen)
      invariant forall o :: o in seen ==> !Fenced(s, o)
      invariant forall j :: 0 <= j < i && !Fenced(s, q[j]) ==> q[j] in seen
      invariant chosen.Some? ==>
                chosen.value in seen && best == group[chosen.value].meta.authority
                && Smallest(group, seen, chosen.value, minimum)
    {
      assert q[i] in q;
      var p := q[i];
      if !Fenced(s, p) {
        LeadNext(group, seen, chosen, p);
        if chosen.None? || Below(best, group[p].meta.authority) {
          SmallestFresh(group, seen, chosen, p);
          chosen, best, minimum := Some(p), group[p].meta.authority, group[p].value.maxAttachments;
        } else if group[p].meta.authority == best {
          SmallestEqual(group, seen, chosen.value, minimum, p, if OwnerRank(p) < OwnerRank(chosen.value) then p
            else chosen.value);
          minimum := if group[p].value.maxAttachments < minimum then group[p].value.maxAttachments else minimum;
          if OwnerRank(p) < OwnerRank(chosen.value) { chosen := Some(p); }
        } else {
          SmallestLower(group, seen, chosen.value, minimum, p);
        }
        seen := seen + {p};
      }
    }
    assert seen == Unfenced(s, group);
    if seen == {} {
      LeadNobody(group, chosen);
    } else {
      LeadWins(group, seen, chosen);
      CapabilityIs(s, port, chosen.value, minimum);
    }
  }

  /** port_capability_of(): what was published, else the endpoint's default, else one of anything. */
  method PortCapabilityOf(s: RegistryState, port: PortRef) returns (c: PortCapability)
    ensures c == CapabilityOf(s, port)
  {
    hide WinningOwner, Fenced, Unfenced;
    var chosen, minimum := PublishedCapability(s, port);
    if chosen.Some? {
      return Group(s.portCapabilities, port)[chosen.value].value.(maxAttachments := if minimum == 0 then 1
        else minimum);
    }
    var group := Group(s.endpoints, port.endpoint);
    var endpoint := WinningRecord(group);
    if endpoint.Some? {
      return group[endpoint.value].value.defaultCapability;
    }
    return PortCapability(1, CONNECTOR_UNKNOWN, MEDIA_UNKNOWN, 0);
  }

  /** side_descriptor_of() */
  method DescribeSide(s: RegistryState, side: SideRef) returns (d: SideDescriptor)
    ensures d == SideDescriptorOf(s, side)
  {
    hide WinningOwner;
    var group := Group(s.objects, side.objectId);
    var chosen := WinningRecord(group);
    if chosen.Some? && side.side < |group[chosen.value].value.sides| {
      return group[chosen.value].value.sides[side.side];
    }
    return SideDescriptor(CONNECTOR_UNKNOWN, MEDIA_UNKNOWN, 0);
  }
}

// derive_subject(): one object side from its own records alone.
module SubjectLoops {
  import opened Words
  import opened Evidence
  import opened Ordering
  import opened State
  import opened Lifecycle
  import opened Derive
  import opened Lookups
  import opened Passes
  import opened CatalogueLoops

  function MetasOf<K, V>(group: map<K, Folded<V>>, keys: seq<K>): (r: seq<Attestation>)
    requires forall i :: 0 <= i < |keys| ==> keys[i] in group
    ensures |r| == |keys| && forall i :: 0 <= i < |keys| ==> r[i] == group[keys[i]].meta
  {
    seq(|keys|, i requires 0 <= i < |keys| => group[keys[i]].meta)
  }

  ghost predicate Highest(metas: seq<Attestation>, best: Authority)
  {
    && (exists i :: 0 <= i < |metas| && metas[i].authority == best)
    && (forall i :: 0 <= i < |metas| ==> AuthorityRank(metas[i].authority) <= AuthorityRank(best))
  }

  ghost function ValidationOf(metas: seq<Attestation>): Validation
  {
    CombineValidation(exists i :: 0 <= i < |metas| && metas[i].inLifetime, forall i :: 0 <= i < |metas| ==>
      metas[i].inLifetime)
  }

  ghost function GroupAuthorities<K, V>(group: map<K, Folded<V>>, keys: set<K>): set<Authority>
    requires keys <= group.Keys
  {
    set k | k in keys :: group[k].meta.authority
  }

  lemma HighestListed<K, V>(group: map<K, Folded<V>>, keys: set<K>, q: seq<K>, best: Authority)
    requires keys <= group.Keys && (forall k :: k in q <==> k in keys) && (forall i :: 0 <= i < |q| ==> q[i] in group)
    requires Highest(MetasOf(group, q), best)
    ensures GroupAuthorities(group, keys) != {} && BestOf(GroupAuthorities(group, keys)) == best
  {
    hide AuthorityRank, BestOf;
    var metas := MetasOf(group, q);
    var i :| 0 <= i < |metas| && metas[i].authority == best;
    assert q[i] in q;
    assert best in GroupAuthorities(group, keys);
    forall a | a in GroupAuthorities(group, keys)
      ensures AuthorityRank(a) <= AuthorityRank(best)
    {
      var k :| k in keys && group[k].meta.authority == a;
      assert k in q;
      var j :| 0 <= j < |q| && q[j] == k;
      assert metas[j].authority == a;
    }
    BestIs(GroupAuthorities(group, keys), best);
  }

  lemma SomeListed<K, V>(group: map<K, Folded<V>>, keys: set<K>, q: seq<K>, live: bool)
    requires keys <= group.Keys && (forall k :: k in q <==> k in keys) && (forall i :: 0 <= i < |q| ==> q[i] in group)
    ensures (exists i :: 0 <= i < |q| && MetasOf(group, q)[i].inLifetime == live) <==>
            (exists k :: k in keys && group[k].meta.inLifetime == live)
  {
    var metas := MetasOf(group, q);
    if k :| k in keys && group[k].meta.inLifetime == live {
      assert k in q;
      var j :| 0 <= j < |q| && q[j] == k;
      assert metas[j].inLifetime == live;
    }
    if i :| 0 <= i < |q| && metas[i].inLifetime == live {
      assert q[i] in q;
      assert group[q[i]].meta.inLifetime == live;
    }
  }

  lemma LifetimesListed<K, V>(group: map<K, Folded<V>>, keys: set<K>, q: seq<K>)
    requires keys <= group.Keys && (forall k :: k in q <==> k in keys) && (forall i :: 0 <= i < |q| ==> q[i] in group)
    ensures ValidationOf(MetasOf(group, q)) ==
            CombineValidation(exists k :: k in keys && group[k].meta.inLifetime, forall k :: k in keys ==>
              group[k].meta.inLifetime)
  {
    hide CombineValidation, MetasOf;
    SomeListed(group, keys, q, true);
    SomeListed(group, keys, q, false);
    var metas := MetasOf(group, q);
    assert (exists i :: 0 <= i < |q| && metas[i].inLifetime) <==>
           (exists i :: 0 <= i < |q| && metas[i].inLifetime == true);
    assert (exists k :: k in keys && group[k].meta.inLifetime) <==>
           (exists k :: k in keys && group[k].meta.inLifetime == true);
    assert (forall i :: 0 <= i < |q| ==> metas[i].inLifetime) <==>
           !(exists i :: 0 <= i < |q| && metas[i].inLifetime == false);
    assert (forall k :: k in keys ==> group[k].meta.inLifetime) <==>
           !(exists k :: k in keys && group[k].meta.inLifetime == false);
  }

  /** The highest authority of the claims. */
  method HighestAuthority(metas: seq<Attestation>) returns (best: Authority)
    requires metas != []
    ensures Highest(metas, best)
  {
    best := metas[0].authority;
    for i := 0 to |metas|
      invariant exists j :: 0 <= j < |metas| && metas[j].authority == best
      invariant forall j :: 0 <= j < i ==> AuthorityRank(metas[j].authority) <= AuthorityRank(best)
    {
      if Below(best, metas[i].authority) { best := metas[i].authority; }
    }
  }

  /** Whether any, and whether all, of the claims were made in this process's lifetime. */
  method Lifetimes(metas: seq<Attestation>) returns (any: bool, all: bool)
    ensures any == exists i :: 0 <= i < |metas| && metas[i].inLifetime
    ensures all == forall i :: 0 <= i < |metas| ==> metas[i].inLifetime
  {
    any, all := false, true;
    for i := 0 to |metas|
      invariant any == exists j :: 0 <= j < i && metas[j].inLifetime
      invariant all == forall j :: 0 <= j < i ==> metas[j].inLifetime
    {
      any := any || metas[i].inLifetime;
      all := all && metas[i].inLifetime;
    }
  }

  // ---- collect_claims() on one side ----

  datatype ClaimSet = ClaimSet(any: bool, authority: Authority, validation: Validation, top: seq<Attestation>)

  /** Every record of the side is filed under its own owner. */
  predicate SideFiled(s: RegistryState, side: SideRef)
  {
    forall o :: o in Group(s.subjects, side) ==> Group(s.subjects, side)[o].meta.owner == o
  }

  ghost function SidesAt(s: RegistryState, side: SideRef, policy: Policy, attached: bool,
                         best: Authority): (r: set<Owner>)
    ensures r <= SideOwners(s, side, policy, attached)
  {
    set o | o in SideOwners(s, side, policy, attached) && s.subjects[side][o].meta.authority == best
  }

  method Eligible(s: RegistryState, side: SideRef, policy: Policy, attached: bool) returns (r: seq<Owner>)
    ensures r == Sorted(SideOwners(s, side, policy, attached), OwnerRank) && Ascending(r, OwnerRank)
    ensures forall i :: 0 <= i < |r| ==> r[i] in SideOwners(s, side, policy, attached)
  {
    hide Sorted, IncarnationOf, Fenced, Participates, Kept, OwnerRank;
    var group := Group(s.subjects, side);
    var current := ObjectIncarnationOf(s, side.objectId);
    ghost var owners := SideOwners(s, side, policy, attached);
    RanksInjective();
    var q := InOrder(group.Keys, OwnerRank);
    r := [];
    KeptNone(q, owners, OwnerRank);
    for i := 0 to |q|
      invariant Kept(q, i, owners, r, OwnerRank)
    {
      assert q[i] in q;
      KeepNext(q, i, owners, r, OwnerRank);
      if Participates(group[q[i]].meta, policy) && !Fenced(s, q[i]) && group[q[i]].value.objectIncarnation == current
        && group[q[i]].value.attached == attached {
        r := r + [q[i]];
      }
    }
    KeptAll(q, owners, r, OwnerRank);
    SortedAscends(owners, OwnerRank);
    assert forall i :: 0 <= i < |r| ==> r[i] in r;
  }

  method AtAuthority<V>(group: map<Owner, Folded<V>>, q: seq<Owner>, best: Authority, ghost chosen: set<Owner>)
    returns (r: seq<Owner>)
    requires Ascending(q, OwnerRank) && forall o :: o in q ==> o in group
    requires forall o :: o in chosen <==> o in q && group[o].meta.authority == best
    ensures r == Sorted(chosen, OwnerRank) && Ascending(r, OwnerRank)
    ensures forall i :: 0 <= i < |r| ==> r[i] in chosen
  {
    hide Sorted, Kept, OwnerRank;
    r := [];
    KeptNone(q, chosen, OwnerRank);
    for i := 0 to |q|
      invariant Kept(q, i, chosen, r, OwnerRank)
    {
      assert q[i] in q;
      KeepNext(q, i, chosen, r, OwnerRank);
      if group[q[i]].meta.authority == best { r := r + [q[i]]; }
    }
    RanksInjective();
    KeptAll(q, chosen, r, OwnerRank);
    SortedAscends(chosen, OwnerRank);
    assert forall i :: 0 <= i < |r| ==> r[i] in r;
  }

  function TopRank(a: Attestation): int { OwnerRank(a.owner) * TWO_64 + a.generation }

  /** Records filed under ascending owners are already in the order the claims are cited in. */
  lemma CitedInOrder<V>(group: map<Owner, Folded<V>>, owners: seq<Owner>)
    requires Ascending(owners, OwnerRank) && forall i :: 0 <= i < |owners| ==>
            owners[i] in group && group[owners[i]].meta.owner == owners[i]
    ensures SortBy(MetasOf(group, owners), TopRank) == MetasOf(group, owners)
  {
    hide OwnerRank;
    var metas := MetasOf(group, owners);
    forall i, j | 0 <= i < j < |metas|
      ensures TopRank(metas[i]) <= TopRank(metas[j])
    {
      assert OwnerRank(metas[i].owner) + 1 <= OwnerRank(metas[j].owner);
    }
    SortByOfSorted(metas, TopRank);
  }

  method CollectClaims(s: RegistryState, side: SideRef, policy: Policy, attached: bool) returns (c: ClaimSet)
    requires SideFiled(s, side)
    ensures c.any <==> SideAuthorities(s, side, policy, attached) != {}
    ensures c.validation == SideValidation(s, side, policy, attached)
    ensures c.any ==> c.authority == BestOf(SideAuthorities(s, side, policy, attached))
    ensures c.any && attached ==> c.top == TopClaims(s, side, policy)
  {
    hide Sorted, SideOwners, AuthorityRank, BestOf, OwnerRank;
    var group := Group(s.subjects, side);
    var q := Eligible(s, side, policy, attached);
    if q == [] {
      NoClaims(s, side, policy, attached);
      return ClaimSet(false, NO_AUTHORITY, Unvalidated, []);
    }
    var metas := MetasOf(group, q);
    var best := HighestAuthority(metas);
    var any, all := Lifetimes(metas);
    ClaimsAre(s, side, policy, attached, q, best);
    ghost var chosen := SidesAt(s, side, policy, attached, best);
    var owners := AtAuthority(group, q, best, chosen);
    CitedInOrder(group, owners);
    c := ClaimSet(true, best, CombineValidation(any, all), SortBy(MetasOf(group, owners), TopRank));
    if attached { TopAre(s, side, policy, best, owners); }
  }

  lemma NoClaims(s: RegistryState, side: SideRef, policy: Policy, attached: bool)
    requires Sorted(SideOwners(s, side, policy, attached), OwnerRank) == []
    ensures SideAuthorities(s, side, policy, attached) == {} && SideValidation(s, side, policy, attached) == Unvalidated
  {
    hide OwnerRank;
    assert SideOwners(s, side, policy, attached) == {};
  }

  lemma ClaimsAre(s: RegistryState, side: SideRef, policy: Policy, attached: bool, q: seq<Owner>, best: Authority)
    requires q == Sorted(SideOwners(s, side, policy, attached), OwnerRank) && q != []
    requires forall i :: 0 <= i < |q| ==> q[i] in Group(s.subjects, side)
    requires Highest(MetasOf(Group(s.subjects, side), q), best)
    ensures SideAuthorities(s, side, policy, attached) != {}
            && BestOf(SideAuthorities(s, side, policy, attached)) == best
    ensures SideValidation(s, side, policy, attached) == ValidationOf(MetasOf(Group(s.subjects, side), q))
  {
    hide OwnerRank, Highest, BestOf, SideOwners, Sorted, CombineValidation;
    var group, owners := Group(s.subjects, side), SideOwners(s, side, policy, attached);
    assert SideAuthorities(s, side, policy, attached) == GroupAuthorities(group, owners);
    HighestListed(group, owners, q, best);
    LifetimesListed(group, owners, q);
  }

  lemma TopAre(s: RegistryState, side: SideRef, policy: Policy, best: Authority, owners: seq<Owner>)
    requires SideAuthorities(s, side, policy, true) != {} && best == BestOf(SideAuthorities(s, side, policy, true))
    requires owners == Sorted(SidesAt(s, side, policy, true, best), OwnerRank)
    requires forall i :: 0 <= i < |owners| ==> owners[i] in Group(s.subjects, side)
    ensures MetasOf(Group(s.subjects, side), owners) == TopClaims(s, side, policy)
  {
    hide Sorted, SideOwners, BestOf, OwnerRank;
    assert TopSides(s, side, policy) == SidesAt(s, side, policy, true, best);
  }

  // ---- derive_subject() ----

  /** The ports and slots the winning claims name, in the order of their owners. */
  method TopPlaces(s: RegistryState, side: SideRef, policy: Policy, best: Authority)
    returns (ports: seq<PortRef>, slots: seq<U32>)
    requires SideAuthorities(s, side, policy, true) != {} && best == BestOf(SideAuthorities(s, side, policy, true))
    ensures ports == Sorted(TopPorts(s, side, policy), PortRank) && slots == TopClaimSlots(s, side, policy)
  {
    hide Sorted, SideOwners, BestOf, OwnerRank, PortRank;
    var group := Group(s.subjects, side);
    var q := Eligible(s, side, policy, true);
    ghost var chosen := SidesAt(s, side, policy, true, best);
    var owners := AtAuthority(group, q, best, chosen);
    assert chosen == TopSides(s, side, policy);
    var all: seq<PortRef>;
    all, slots := [], [];
    for i := 0 to |owners|
      invariant |all| == |slots| == i
      invariant forall j :: 0 <= j < i ==>
                all[j] == group[owners[j]].value.port && slots[j] == group[owners[j]].value.slot
    {
      all := all + [group[owners[i]].value.port];
      slots := slots + [group[owners[i]].value.slot];
    }
    PortsListed(s, side, policy, owners, all);
    RanksInjective();
    ports := SortUnique(all, PortRank, TopPorts(s, side, policy));
  }

  lemma PortsListed(s: RegistryState, side: SideRef, policy: Policy, owners: seq<Owner>, all: seq<PortRef>)
    requires SideAuthorities(s, side, policy, true) != {}
            && (forall o :: o in owners <==> o in TopSides(s, side, policy))
    requires |all| == |owners| && forall j :: 0 <= j < |all| ==>
            owners[j] in Group(s.subjects, side) && all[j] == Group(s.subjects, side)[owners[j]].value.port
    ensures forall p :: p in all <==> p in TopPorts(s, side, policy)
  {
    hide SideOwners, BestOf;
    forall p | p in TopPorts(s, side, policy)
      ensures p in all
    {
      var o :| o in TopSides(s, side, policy) && s.subjects[side][o].value.port == p;
      var j :| 0 <= j < |owners| && owners[j] == o;
      assert all[j] == p;
    }
    forall p | p in all
      ensures p in TopPorts(s, side, policy)
    {
      var j :| 0 <= j < |all| && all[j] == p;
      assert owners[j] in owners;
    }
  }

  method DeriveSubject(s: RegistryState, side: SideRef, policy: Policy) returns (d: Derivation)
    requires SideFiled(s, side)
    ensures d == DeriveSide(s, side, policy)
  {
    hide SideAuthorities, SideValidation, BestOf, Sorted, TopPorts, TopClaims, TopClaimSlots, IncarnationOf,
         CombineValidation, PortRank;
    var incarnation := ObjectIncarnationOf(s, side.objectId);
    d := Derivation(false, Unknown, Unvalidated, NO_AUTHORITY, incarnation, [], [], []);
    if !ObjectExists(s, side.objectId) { return; }
    var up := CollectClaims(s, side, policy, true);
    var down := CollectClaims(s, side, policy, false);
    if !up.any && !down.any { return; }
    if up.any && (!down.any || Below(down.authority, up.authority)) {
      var ports, slots := TopPlaces(s, side, policy, up.authority);
      d := Derivation(true, if |ports| > 1 then Conflicting
        else Attached, up.validation, up.authority, incarnation, ports, slots, up.top);
    } else if down.any && (!up.any || Below(up.authority, down.authority)) {
      d := Derivation(true, Empty, down.validation, down.authority, incarnation, [], [], []);
    } else {
      d := Derivation(true, Conflicting,
                      CombineValidation(up.validation != Unvalidated || down.validation != Unvalidated,
                                        up.validation == Validated || down.validation == Validated),
                      up.authority, incarnation, [], [], []);
    }
  }

  /** subject_double_booked() */
  method SubjectDoubleBooked(s: RegistryState, side: SideRef, policy: Policy) returns (r: bool)
    requires SideFiled(s, side)
    ensures r == DoubleBooked(s, side, policy)
  {
    hide DeriveSide;
    var d := DeriveSubject(s, side, policy);
    r := d.state == Conflicting && |d.ports| > 1;
  }
}

// derive_port_view(): one port from the records of its slots.
module PortLoops {
  import opened Words
  import opened Evidence
  import opened Ordering
  import opened State
  import opened Lifecycle
  import opened Derive
  import opened Keys
  import opened Invariants
  import opened Lookups
  import opened Passes
  import opened CatalogueLoops
  import opened SubjectLoops

  // ---- Live slots ----

  method SlotIsLive(s: RegistryState, policy: Policy, port: PortRef, key: SlotKey) returns (r: bool)
    requires Has(s.ports, port, key)
    ensures r == SlotLive(s, policy, port, key)
  {
    hide Fenced, Participates, IncarnationOf, LifecycleOf;
    var f := s.ports[port][key];
    if Fenced(s, key.owner) || !Participates(f.meta, policy) { return false; }
    var x := f.value.subject.objectId;
    var verdict := LifecycleActionOf(s, x);
    if !ObjectExists(s, x) || verdict.action != Present { return false; }
    var current := ObjectIncarnationOf(s, x);
    if f.value.objectIncarnation != current { return false; }
    if f.value.empty { return true; }
    var group := Group(s.subjects, f.value.subject);
    if key.owner !in group { return false; }
    var g := group[key.owner];
    return g.value.attached && g.value.port == port && g.value.slot == key.slot
           && g.value.objectIncarnation == current && g.meta.generation == f.meta.generation;
  }

  method LiveInOrder(s: RegistryState, policy: Policy, port: PortRef) returns (live: seq<SlotKey>)
    ensures live == Sorted(LiveSlots(s, policy, port), SlotRank) && Ascending(live, SlotRank)
    ensures forall key :: key in live ==> key in Group(s.ports, port)
  {
    hide Sorted, SlotLive, Kept, SlotRank;
    var group := Group(s.ports, port);
    ghost var chosen := LiveSlots(s, policy, port);
    RanksInjective();
    var q := InOrder(group.Keys, SlotRank);
    live := [];
    KeptNone(q, chosen, SlotRank);
    for i := 0 to |q|
      invariant Kept(q, i, chosen, live, SlotRank)
    {
      assert q[i] in q;
      KeepNext(q, i, chosen, live, SlotRank);
      var r := SlotIsLive(s, policy, port, q[i]);
      if r { live := live + [q[i]]; }
    }
    KeptAll(q, chosen, live, SlotRank);
    SortedAscends(chosen, SlotRank);
  }

  /** One pass over some slots, keeping those that pass a test. */
  method Keep(q: seq<SlotKey>, test: SlotKey -> bool, ghost chosen: set<SlotKey>) returns (r: seq<SlotKey>)
    requires Ascending(q, SlotRank) && forall key :: key in chosen <==> key in q && test(key)
    ensures r == Sorted(chosen, SlotRank) && Ascending(r, SlotRank)
  {
    hide Sorted, Kept, SlotRank;
    r := [];
    KeptNone(q, chosen, SlotRank);
    for i := 0 to |q|
      invariant Kept(q, i, chosen, r, SlotRank)
    {
      assert q[i] in q;
      KeepNext(q, i, chosen, r, SlotRank);
      if test(q[i]) { r := r + [q[i]]; }
    }
    RanksInjective();
    KeptAll(q, chosen, r, SlotRank);
    SortedAscends(chosen, SlotRank);
  }

  /** The claims of lower authority: how many, and the first of them. */
  method Overridden(s: RegistryState, l: Limits, policy: Policy, port: PortRef, live: seq<SlotKey>, best: Authority)
    returns (reported: seq<Attestation>, total: nat)
    requires live == Sorted(LiveSlots(s, policy, port), SlotRank) && Ascending(live, SlotRank)
    requires SlotAuthorities(s, policy, port) != {} && best == PortAuthority(s, policy, port)
    ensures reported == OverriddenList(s, l, policy, port) && total == |OverriddenSlots(s, policy, port)|
  {
    hide Sorted, Kept, SlotRank, LiveSlots, PortAuthority, ClaimRank;
    var group := Group(s.ports, port);
    ghost var chosen := OverriddenSlots(s, policy, port);
    ghost var lower := [];
    var kept := [];
    total := 0;
    KeptNone(live, chosen, SlotRank);
    for i := 0 to |live|
      invariant Kept(live, i, chosen, lower, SlotRank) && total == |lower|
      invariant kept == if |lower| > l.maxOverridden then lower[..l.maxOverridden] else lower
    {
      assert live[i] in live;
      KeepNext(live, i, chosen, lower, SlotRank);
      if group[live[i]].meta.authority != best {
        lower := lower + [live[i]];
        total := total + 1;
        if |kept| < l.maxOverridden { kept := kept + [live[i]]; }
      }
    }
    RanksInjective();
    KeptAll(live, chosen, lower, SlotRank);
    assert forall i :: 0 <= i < |kept| ==> kept[i] in lower;
    assert MetasOf(group, kept) == SlotMetas(s, port, kept);
    reported := SortBy(MetasOf(group, kept), ClaimRank);
  }

  lemma CiteListed(s: RegistryState, port: PortRef, keys: set<SlotKey>, q: seq<SlotKey>)
    requires keys <= Group(s.ports, port).Keys && q == Sorted(keys, SlotRank)
    requires forall i :: 0 <= i < |q| ==> q[i] in Group(s.ports, port)
    ensures SortBy(MetasOf(Group(s.ports, port), q), ClaimRank) == Cite(s, port, keys)
    ensures ValidationOf(MetasOf(Group(s.ports, port), q)) == SlotValidation(s, port, keys)
  {
    hide Sorted, SlotRank, ClaimRank, CombineValidation, SortBy, ValidationOf;
    assert MetasOf(Group(s.ports, port), q) == SlotMetas(s, port, q);
    LifetimesListed(Group(s.ports, port), keys, q);
  }

  /** The records of some slots, cited in claim order, and how far they are validated. */
  method Citation(s: RegistryState, port: PortRef, q: seq<SlotKey>, ghost keys: set<SlotKey>)
    returns (claims: seq<Attestation>, validation: Validation)
    requires keys <= Group(s.ports, port).Keys && q == Sorted(keys, SlotRank)
    ensures claims == Cite(s, port, keys) && validation == SlotValidation(s, port, keys)
  {
    hide Sorted, SlotRank, ClaimRank, Cite, SlotValidation, SortBy, ValidationOf, CombineValidation;
    assert forall i :: 0 <= i < |q| ==> q[i] in q;
    var metas := MetasOf(Group(s.ports, port), q);
    var any, all := Lifetimes(metas);
    CiteListed(s, port, keys, q);
    ValidationFrom(metas, any, all);
    claims, validation := SortBy(metas, ClaimRank), CombineValidation(any, all);
  }

  /** The distinct subjects of the occupied slots, in order. */
  method Subjects(s: RegistryState, policy: Policy, port: PortRef, occupied: seq<SlotKey>) returns (sides: seq<SideRef>)
    requires SlotAuthorities(s, policy, port) != {} && occupied == Sorted(TopSlots(s, policy, port, false), SlotRank)
    ensures sides == Sorted(SubjectsAt(s, policy, port), SideRank)
  {
    hide Sorted, SlotRank, SideRank, TopSlots;
    var all: seq<SideRef> := [];
    for i := 0 to |occupied|
      invariant |all| == i && forall j :: 0 <= j < i ==>
                occupied[j] in Group(s.ports, port) && all[j] == s.ports[port][occupied[j]].value.subject
    {
      assert occupied[i] in occupied;
      all := all + [s.ports[port][occupied[i]].value.subject];
    }
    forall side | side in SubjectsAt(s, policy, port)
      ensures side in all
    {
      var key :| key in TopSlots(s, policy, port, false) && s.ports[port][key].value.subject == side;
      var j :| 0 <= j < |occupied| && occupied[j] == key;
      assert all[j] == side;
    }
    forall side | side in all
      ensures side in SubjectsAt(s, policy, port)
    {
      var j :| 0 <= j < |all| && all[j] == side;
      assert occupied[j] in occupied;
    }
    RanksInjective();
    sides := SortUnique(all, SideRank, SubjectsAt(s, policy, port));
  }

  // ---- Edges ----

  /** One edge: the claims of its subject among the occupied slots, the last of them giving its slot. */
  method EdgeFor(s: RegistryState, l: Limits, policy: Policy, port: PortRef, side: SideRef, occupied: seq<SlotKey>,
                 best: Authority,
                 capability: PortCapability, state: PortState, overridden: seq<Attestation>, total: nat)
                   returns (e: Edge)
    requires SlotAuthorities(s, policy, port) != {} && side in SubjectsAt(s, policy, port)
    requires occupied == Sorted(TopSlots(s, policy, port, false), SlotRank) && Ascending(occupied, SlotRank)
    requires best == PortAuthority(s, policy, port) && capability == CapabilityOf(s, port)
            && state == StateOf(s, policy, port)
    requires overridden == OverriddenList(s, l, policy, port) && total == |OverriddenSlots(s, policy, port)|
    ensures e == EdgeOf(s, l, policy, port, side)
  {
    hide Sorted, SlotRank, SlotAuthorities, TopSlots, SubjectsAt, PortAuthority, CapabilityOf, StateOf, OverriddenList,
         OverriddenSlots, SideDescriptorOf;
    hide Cite, SlotValidation, ConnectorCompatible, MediaCompatible;
    var group := Group(s.ports, port);
    ghost var chosen := SlotsOf(s, policy, port, side);
    var keys := Keep(occupied, key => key in group && group[key].value.subject == side, chosen);
    assert keys != [];
    var claims, validation := Citation(s, port, keys, chosen);
    var last := keys[|keys| - 1];
    assert last in keys;
    var descriptor := DescribeSide(s, side);
    e := Edge(side, port, last.slot, best, validation, ConnectorCompatible(descriptor, capability),
              MediaCompatible(descriptor, capability), state == Conflicting, group[last].value.objectIncarnation,
              claims, overridden, total);
  }

  lemma ValidationFrom(metas: seq<Attestation>, any: bool, all: bool)
    requires any == exists i :: 0 <= i < |metas| && metas[i].inLifetime
    requires all == forall i :: 0 <= i < |metas| ==> metas[i].inLifetime
    ensures CombineValidation(any, all) == ValidationOf(metas)
  {
  }

  lemma {:induction false} EdgeNotesAppend(edges: seq<Edge>, e: Edge)
    ensures EdgeNotes(edges + [e]) == EdgeNotes(edges) + EdgeNotes([e])
  {
    if edges == [] {
      assert [] + [e] == [e];
    } else {
      EdgeNotesAppend(edges[1..], e);
      assert (edges + [e])[1..] == edges[1..] + [e];
    }
  }

  ghost function BookingNote(s: RegistryState, policy: Policy, port: PortRef, side: SideRef): seq<Note>
  {
    BookingNotes(s, policy, port, [side])
  }

  lemma BookingIs(s: RegistryState, policy: Policy, port: PortRef, side: SideRef)
    ensures BookingNote(s, policy, port, side) ==
            if DoubleBooked(s, side, policy)
            then [Note(ObjectSideDoubleBooked, Some(side), Some(port),
              SortBy(DeriveSide(s, side, policy).top, ClaimRank))] else []
  {
    hide DoubleBooked, DeriveSide, SortBy, ClaimRank;
    assert [side][1..] == [] && BookingNotes(s, policy, port, []) == [];
  }

  lemma BookingStep(s: RegistryState, policy: Policy, port: PortRef, sides: seq<SideRef>)
    requires sides != []
    ensures BookingNotes(s, policy, port, sides) == BookingNote(s, policy, port, sides[0]) +
            BookingNotes(s, policy, port, sides[1..])
  {
    hide DoubleBooked, DeriveSide, SortBy, ClaimRank, BookingNote;
    BookingIs(s, policy, port, sides[0]);
  }

  lemma {:induction false} BookingNotesAppend(s: RegistryState, policy: Policy, port: PortRef, sides: seq<SideRef>,
                                              side: SideRef)
    ensures BookingNotes(s, policy, port, sides + [side]) == BookingNotes(s, policy, port, sides) +
            BookingNote(s, policy, port, side)
  {
    hide BookingNotes;
    if sides == [] {
      assert [] + [side] == [side];
      NoBookings(s, policy, port, []);
    } else {
      hide BookingNote;
      BookingNotesAppend(s, policy, port, sides[1..], side);
      BookingStep(s, policy, port, sides);
      BookingStep(s, policy, port, sides + [side]);
      assert (sides + [side])[1..] == sides[1..] + [side];
    }
  }

  method Edges(s: RegistryState, l: Limits, policy: Policy, port: PortRef, sides: seq<SideRef>, occupied: seq<SlotKey>,
               best: Authority,
               capability: PortCapability, state: PortState, overridden: seq<Attestation>, total: nat)
    returns (edges: seq<Edge>, notes: seq<Note>)
    requires SlotAuthorities(s, policy, port) != {} && forall side :: side in sides ==>
            side in SubjectsAt(s, policy, port)
    requires occupied == Sorted(TopSlots(s, policy, port, false), SlotRank) && Ascending(occupied, SlotRank)
    requires best == PortAuthority(s, policy, port) && capability == CapabilityOf(s, port)
            && state == StateOf(s, policy, port)
    requires overridden == OverriddenList(s, l, policy, port) && total == |OverriddenSlots(s, policy, port)|
    ensures edges == EdgesOf(s, l, policy, port, sides) && notes == EdgeNotes(edges)
  {
    hide Sorted, SlotRank, SlotAuthorities, TopSlots, SubjectsAt, PortAuthority, CapabilityOf, StateOf, OverriddenList,
         OverriddenSlots, EdgeOf;
    edges, notes := [], [];
    for i := 0 to |sides|
      invariant |edges| == i && notes == EdgeNotes(edges)
      invariant forall j :: 0 <= j < i ==> sides[j] in sides && edges[j] == EdgeOf(s, l, policy, port, sides[j])
    {
      assert sides[i] in sides;
      var e := EdgeFor(s, l, policy, port, sides[i], occupied, best, capability, state, overridden, total);
      EdgeNotesAppend(edges, e);
      assert EdgeNotes([e]) ==
             (if e.connectorCompatible then [] else [Note(IncompatibleConnector, Some(e.subject), Some(e.port),
               e.claims)]) +
             (if e.mediaCompatible then [] else [Note(IncompatibleMedia, Some(e.subject), Some(e.port), e.claims)]) +
               EdgeNotes([]);
      if !e.connectorCompatible {
        notes := notes + [Note(IncompatibleConnector, Some(e.subject), Some(e.port), e.claims)];
      }
      if !e.mediaCompatible { notes := notes + [Note(IncompatibleMedia, Some(e.subject), Some(e.port), e.claims)]; }
      edges := edges + [e];
    }
  }

  // ---- Double bookings ----

  /** Every side record is filed under its own owner, as on every reachable state. */
  ghost predicate SubjectsFiled(s: RegistryState) { forall side :: SideFiled(s, side) }

  lemma RecordsFiled(s: RegistryState)
    requires RecordsOk(s)
    ensures SubjectsFiled(s)
  {
    hide RecordOk;
    forall side, o | o in Group(s.subjects, side)
      ensures Group(s.subjects, side)[o].meta.owner == o
    {
      RecordFiled(s, side, o);
    }
  }

  lemma RecordFiled(s: RegistryState, side: SideRef, o: Owner)
    requires RecordsOk(s) && o in Group(s.subjects, side)
    ensures Group(s.subjects, side)[o].meta.owner == o
  {
    assert At(s, SubjectKey(side, o)).Some?;
  }

  method AnyBooked(s: RegistryState, policy: Policy, sides: seq<SideRef>) returns (r: bool)
    requires SubjectsFiled(s)
    ensures r == exists side :: side in sides && DoubleBooked(s, side, policy)
  {
    hide DoubleBooked, SideFiled;
    r := false;
    for i := 0 to |sides|
      invariant r == exists j :: 0 <= j < i && DoubleBooked(s, sides[j], policy)
    {
      assert SideFiled(s, sides[i]);
      var booked := SubjectDoubleBooked(s, sides[i], policy);
      r := r || booked;
    }
  }

  method Bookings(s: RegistryState, policy: Policy, port: PortRef, sides: seq<SideRef>) returns (notes: seq<Note>)
    requires SubjectsFiled(s)
    ensures notes == BookingNotes(s, policy, port, sides)
  {
    hide DeriveSide, SideFiled, SortBy, ClaimRank, BookingNote;
    notes := [];
    for i := 0 to |sides|
      invariant notes == BookingNotes(s, policy, port, sides[..i])
    {
      assert sides[..i + 1] == sides[..i] + [sides[i]];
      assert SideFiled(s, sides[i]);
      BookingNotesAppend(s, policy, port, sides[..i], sides[i]);
      BookingIs(s, policy, port, sides[i]);
      var d := DeriveSubject(s, sides[i], policy);
      if d.state == Conflicting && |d.ports| > 1 {
        notes := notes + [Note(ObjectSideDoubleBooked, Some(sides[i]), Some(port), SortBy(d.top, ClaimRank))];
      }
    }
    assert sides[..|sides|] == sides;
  }

  lemma {:induction false} NoBookings(s: RegistryState, policy: Policy, port: PortRef, sides: seq<SideRef>)
    requires forall side :: side in sides ==> !DoubleBooked(s, side, policy)
    ensures BookingNotes(s, policy, port, sides) == []
  {
    hide DoubleBooked, DeriveSide;
    if sides != [] {
      assert sides[0] in sides;
      NoBookings(s, policy, port, sides[1..]);
    }
  }

  // ---- The view ----

  lemma NoneLive(s: RegistryState, policy: Policy, port: PortRef)
    requires Sorted(LiveSlots(s, policy, port), SlotRank) == []
    ensures SlotAuthorities(s, policy, port) == {}
  {
    hide SlotRank;
    assert LiveSlots(s, policy, port) == {};
  }

  lemma BestSlot(s: RegistryState, policy: Policy, port: PortRef, live: seq<SlotKey>, best: Authority)
    requires live == Sorted(LiveSlots(s, policy, port), SlotRank) && forall i :: 0 <= i < |live| ==>
            live[i] in Group(s.ports, port)
    requires Highest(MetasOf(Group(s.ports, port), live), best)
    ensures SlotAuthorities(s, policy, port) != {} && PortAuthority(s, policy, port) == best
  {
    hide Sorted, SlotRank, Highest, BestOf, SlotLive;
    var group, keys := Group(s.ports, port), LiveSlots(s, policy, port);
    assert SlotAuthorities(s, policy, port) == GroupAuthorities(group, keys);
    HighestListed(group, keys, live, best);
  }

  /** The slots at the winning authority: occupied, vacated, and both, in order. */
  method TopInOrder(s: RegistryState, policy: Policy, port: PortRef, live: seq<SlotKey>, best: Authority)
    returns (occupied: seq<SlotKey>, vacant: seq<SlotKey>, top: seq<SlotKey>)
    requires live == Sorted(LiveSlots(s, policy, port), SlotRank) && Ascending(live, SlotRank)
    requires SlotAuthorities(s, policy, port) != {} && best == PortAuthority(s, policy, port)
    ensures occupied == Sorted(TopSlots(s, policy, port, false), SlotRank) && Ascending(occupied, SlotRank)
    ensures vacant == Sorted(TopSlots(s, policy, port, true), SlotRank)
    ensures top == Sorted(TopSlots(s, policy, port, false) + TopSlots(s, policy, port, true), SlotRank)
  {
    hide Sorted, SlotRank, PortAuthority, SlotLive;
    var group := Group(s.ports, port);
    occupied := Keep(live, key => key in group && group[key].meta.authority == best
      && !group[key].value.empty, TopSlots(s, policy, port, false));
    vacant := Keep(live, key => key in group && group[key].meta.authority == best
      && group[key].value.empty, TopSlots(s, policy, port, true));
    top := Keep(live, key => key in group && group[key].meta.authority == best, TopSlots(s, policy, port, false) +
      TopSlots(s, policy, port, true));
  }

  /** How the conflicts of an occupied port are noted. */
  method Conflicts(s: RegistryState, policy: Policy, port: PortRef, sides: seq<SideRef>, occupied: seq<SlotKey>,
                   vacant: seq<SlotKey>, top: seq<SlotKey>,
                   capability: PortCapability, booked: bool) returns (notes: seq<Note>)
    requires SlotAuthorities(s, policy, port) != {} && SubjectsFiled(s) && capability == CapabilityOf(s, port)
    requires sides == Sorted(SubjectsAt(s, policy, port), SideRank)
    requires occupied == Sorted(TopSlots(s, policy, port, false), SlotRank)
            && vacant == Sorted(TopSlots(s, policy, port, true), SlotRank)
    requires top == Sorted(TopSlots(s, policy, port, false) + TopSlots(s, policy, port, true), SlotRank)
    requires booked == exists side :: side in sides && DoubleBooked(s, side, policy)
    ensures notes == ConflictNotes(s, policy, port)
  {
    hide Sorted, SlotRank, SideRank, TopSlots, SubjectsAt, CapabilityOf, DoubleBooked, BookingNotes, Cite,
         SubjectsFiled, SlotValidation;
    var crowded, _ := Citation(s, port, occupied, TopSlots(s, policy, port, false));
    var mixed, _ := Citation(s, port, top, TopSlots(s, policy, port, false) + TopSlots(s, policy, port, true));
    var bookings := [];
    if booked { bookings := Bookings(s, policy, port, sides); } else { NoBookings(s, policy, port, sides); }
    notes := (if |sides| > capability.maxAttachments then [Note(TooManyAttachments, None, Some(port), crowded)]
      else []) +
             (if vacant != [] then [Note(EmptyAndOccupied, None, Some(port), mixed)] else []) + bookings;
  }

  lemma EdgesInOrder(s: RegistryState, l: Limits, policy: Policy, port: PortRef)
    requires SlotAuthorities(s, policy, port) != {}
    ensures var edges := EdgesOf(s, l, policy, port, Sorted(SubjectsAt(s, policy, port), SideRank));
            SortBy(edges, EdgeRank) == edges
  {
    hide SideRank, Sorted, SubjectsAt;
    RanksInjective();
    SortedAscends(SubjectsAt(s, policy, port), SideRank);
    var sides := Sorted(SubjectsAt(s, policy, port), SideRank);
    var edges := EdgesOf(s, l, policy, port, sides);
    EdgeSubjects(s, l, policy, port, sides);
    SortByOfSorted(edges, EdgeRank);
  }

  function EdgeRank(e: Edge): int { SideRank(e.subject) }

  lemma EdgeSubjects(s: RegistryState, l: Limits, policy: Policy, port: PortRef, sides: seq<SideRef>)
    requires SlotAuthorities(s, policy, port) != {} && forall side :: side in sides ==>
            side in SubjectsAt(s, policy, port)
    ensures forall i :: 0 <= i < |sides| ==> EdgesOf(s, l, policy, port, sides)[i].subject == sides[i]
  {
    hide Sorted, SlotRank, TopSlots, SubjectsAt, PortAuthority, CapabilityOf, StateOf, OverriddenList, OverriddenSlots,
         SideDescriptorOf, Cite, SlotValidation;
  }

  /** The rest of the view of a port with occupied slots at its winning authority. */
  method OccupiedView(s: RegistryState, l: Limits, policy: Policy, port: PortRef, live: seq<SlotKey>, best: Authority,
                      occupied: seq<SlotKey>,
                      vacant: seq<SlotKey>, top: seq<SlotKey>, capability: PortCapability)
    returns (state: PortState, edges: seq<Edge>, notes: seq<Note>)
    requires SubjectsFiled(s) && live == Sorted(LiveSlots(s, policy, port), SlotRank) && Ascending(live, SlotRank)
    requires SlotAuthorities(s, policy, port) != {} && best == PortAuthority(s, policy, port)
            && capability == CapabilityOf(s, port)
    requires occupied == Sorted(TopSlots(s, policy, port, false), SlotRank) && Ascending(occupied, SlotRank)
            && occupied != []
    requires vacant == Sorted(TopSlots(s, policy, port, true), SlotRank)
    requires top == Sorted(TopSlots(s, policy, port, false) + TopSlots(s, policy, port, true), SlotRank)
    ensures state == StateOf(s, policy, port)
    ensures edges == EdgesOf(s, l, policy, port, Sorted(SubjectsAt(s, policy, port), SideRank))
    ensures notes == EdgeNotes(edges) + ConflictNotes(s, policy, port)
  {
    hide Sorted, SlotRank, SideRank, LiveSlots, TopSlots, SubjectsAt, CapabilityOf, DoubleBooked, ConflictNotes,
         EdgeNotes, EdgesOf;
    hide SubjectsFiled, SlotAuthorities, PortAuthority, OverriddenList, OverriddenSlots, SortBy, EdgeRank;
    var overridden, total := Overridden(s, l, policy, port, live, best);
    var sides := Subjects(s, policy, port, occupied);
    var booked := AnyBooked(s, policy, sides);
    state := if |sides| > capability.maxAttachments || vacant != [] || booked then Conflicting else Attached;
    assert state == StateOf(s, policy, port);
    edges, notes := Edges(s, l, policy, port, sides, occupied, best, capability, state, overridden, total);
    var more := Conflicts(s, policy, port, sides, occupied, vacant, top, capability, booked);
    notes := notes + more;
    EdgesInOrder(s, l, policy, port);
    edges := SortBy(edges, EdgeRank);
  }

  method DerivePortView(s: RegistryState, l: Limits, policy: Policy, port: PortRef) returns (v: PortView)
    requires SubjectsFiled(s)
    ensures v == DerivePort(s, l, policy, port)
  {
    hide Sorted, SlotRank, SideRank, LiveSlots, TopSlots, SubjectsAt, CapabilityOf, DoubleBooked, ConflictNotes,
         EdgeNotes, EdgesOf, Cite, SlotValidation;
    hide SubjectsFiled, Highest, SlotAuthorities, PortAuthority;
    var capability := PortCapabilityOf(s, port);
    var live := LiveInOrder(s, policy, port);
    if live == [] {
      NoneLive(s, policy, port);
      return PortView(port, Unknown, Unvalidated, capability, [], [], []);
    }
    assert forall i :: 0 <= i < |live| ==> live[i] in live;
    var best := HighestAuthority(MetasOf(Group(s.ports, port), live));
    BestSlot(s, policy, port, live, best);
    var occupied, vacant, top := TopInOrder(s, policy, port, live, best);
    var emptiness, _ := Citation(s, port, vacant, TopSlots(s, policy, port, true));
    var _, validation := Citation(s, port, top, TopSlots(s, policy, port, false) + TopSlots(s, policy, port, true));
    if occupied == [] {
      return PortView(port, if vacant == [] then Unknown else Empty, validation, capability, [], [], emptiness);
    }
    var state, edges, notes := OccupiedView(s, l, policy, port, live, best, occupied, vacant, top, capability);
    v := PortView(port, state, validation, capability, edges, notes, emptiness);
  }
}
