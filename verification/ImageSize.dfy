// Every count in a state is at most the number of bytes of its image.
//
// An image the encoder agrees to write is at most 8 MiB, so no count in it can overflow its
// 32-bit field, and whether the image can be read back depends on the reader's bounds alone.

module ImageSize {
  import opened Words
  import opened LittleEndian
  import opened Evidence
  import opened Ordering
  import opened State
  import opened Codec
  import opened Wire
  import opened Records
  import opened MapCodec
  import opened StateImage

  /** The value takes at least one byte. */
  predicate Shows<T>(c: Codec<T>, v: T) { |c.write(v)| > 0 }

  lemma PairLength<A, B>(a: Codec<A>, b: Codec<B>, v: (A, B))
    ensures |Pair(a, b).write(v)| == |a.write(v.0)| + |b.write(v.1)|
  {
  }

  lemma {:induction false} AllLength<A>(c: Codec<A>, vs: seq<A>)
    requires forall v :: v in vs ==> Shows(c, v)
    ensures |WriteAll(c, vs)| >= |vs|
    ensures forall v :: v in vs ==> |WriteAll(c, vs)| >= |c.write(v)|
  {
    if vs == [] {
    } else {
      AllLength(c, vs[1..]);
      assert Shows(c, vs[0]);
      assert forall v :: v in vs ==> v == vs[0] || v in vs[1..];
    }
  }

  lemma ListLength<A>(c: Codec<A>, max: nat, vs: seq<A>)
    requires forall v :: v in vs ==> Shows(c, v)
    ensures |ListOf(c, max).write(vs)| > |vs|
    ensures forall v :: v in vs ==> |ListOf(c, max).write(vs)| >= |c.write(v)|
  {
    hide WriteAll, Shows;
    AllLength(c, vs);
  }

  lemma MapLength<K(!new), V(!new)>(entry: Codec<(K, V)>, rank: K -> int, max: nat, m: map<K, V>)
    requires forall k :: k in m ==> Shows(entry, (k, m[k]))
    ensures |MapOf(entry, rank, max).write(m)| > |m|
  {
    hide Entries, Collect, Shows, ListOf;
    EntriesMembers(m, rank);
    forall e | e in Entries(m, rank)
      ensures Shows(entry, e)
    {
      assert e == (e.0, m[e.0]);
    }
    ListLength(entry, max, Entries(m, rank));
  }

  lemma TableLength<P(!new), K(!new), V(!new)>(row: Codec<(P, seq<(K, V)>)>, prank: P -> int, krank: K -> int,
                                               max: nat, t: map<P, map<K, V>>)
    requires forall p :: p in t ==> |row.write((p, Entries(t[p], krank)))| > |t[p]|
    ensures |TableOf(row, prank, krank, max).write(t)| > |t|
    ensures forall p :: p in t ==> |TableOf(row, prank, krank, max).write(t)| > |t[p]|
  {
    hide Entries, Unnest, Nest, ListOf;
    RowsMembers(t, prank, krank);
    var rows := Unnest(t, prank, krank);
    forall r | r in rows
      ensures Shows(row, r)
    {
      assert r == (r.0, Entries(t[r.0], krank));
    }
    ListLength(row, max, rows);
  }

  // ---- Keys take space ----

  lemma IdentityShows(x: Id)
    ensures Shows(Identity(), x)
  {
  }

  lemma OwnerShows(o: Owner)
    ensures Shows(OwnerC(), o)
  {
    hide Identity, Word64;
    IdentityShows(o.source);
    PairLength(Identity(), Word64(), OwnerParts(o));
  }

  lemma SlotShows(p: PortRef, key: SlotKey)
    ensures Shows(SlotKeyC(p), key)
  {
    hide OwnerC, Word32;
    OwnerShows(key.owner);
    PairLength(OwnerC(), Word32(), SlotKeyParts(key));
  }

  // ---- Tables ----

  lemma OwnedRowLength<P(!new), V(!new)>(primary: Codec<P>, value: Codec<V>, l: Limits, p: P,
                                         group: map<Owner, Folded<V>>)
    ensures |OwnedRow(primary, value, l).write((p, Entries(group, OwnerRank)))| > |group|
  {
    hide OwnerC, FoldedC, ListOf, Entries, Shows;
    var entries := Entries(group, OwnerRank);
    forall e | e in entries
      ensures Shows(OwnedEntry(value, l), e)
    {
      EntryShows(value, l, e);
    }
    ListLength(OwnedEntry(value, l), l.maxSources, entries);
    PairLength(primary, ListOf(OwnedEntry(value, l), l.maxSources), (p, entries));
  }

  lemma EntryShows<V(!new)>(value: Codec<V>, l: Limits, e: (Owner, Folded<V>))
    ensures Shows(OwnedEntry(value, l), e)
  {
    hide OwnerC, FoldedC;
    OwnerShows(e.0);
    PairLength(OwnerC(), FoldedC(value, l), e);
  }

  lemma RingsCount<P(!new), V(!new)>(t: Table<P, Owner, V>, value: Codec<V>, l: Limits)
    requires RecordsFit(t, value, l)
    ensures forall p, o :: p in t && o in t[p] ==> |t[p][o].superseded| < TWO_32
  {
    hide Accepts;
    forall p, o | p in t && o in t[p]
      ensures |t[p][o].superseded| < TWO_32
    {
      assert OwnerNamed(o) && RecordFits(t[p][o], l);
    }
  }

  lemma OwnedCountable<P(!new), V(!new)>(primary: Codec<P>, value: Codec<V>, prank: P -> int, l: Limits, max: nat,
                                         t: Table<P, Owner, V>)
    requires RecordsFit(t, value, l) && |OwnedTable(primary, value, prank, l, max).write(t)| < TWO_32
    ensures Countable(t)
  {
    hide OwnedRow, Entries, TableOf, RecordsFit;
    RingsCount(t, value, l);
    forall p | p in t
      ensures |OwnedRow(primary, value, l).write((p, Entries(t[p], OwnerRank)))| > |t[p]|
    {
      OwnedRowLength(primary, value, l, p, t[p]);
    }
    TableLength(OwnedRow(primary, value, l), prank, OwnerRank, max, t);
  }

  lemma PortRowLength(l: Limits, p: PortRef, group: map<SlotKey, Folded<PortValue>>)
    ensures |PortRow(l).write((p, Entries(group, SlotRank)))| > |group|
  {
    hide SlotKeyC, FoldedC, ListOf, Entries, Shows, PortRefC, PortValueC, Times32;
    var entries := Entries(group, SlotRank);
    forall e | e in entries
      ensures Shows(SlotEntry(p, l), e)
    {
      SlotEntryShows(p, l, e);
    }
    ListLength(SlotEntry(p, l), Times32(l.maxSources, l.maxPortAttachments), entries);
  }

  lemma SlotEntryShows(p: PortRef, l: Limits, e: (SlotKey, Folded<PortValue>))
    ensures Shows(SlotEntry(p, l), e)
  {
    hide SlotKeyC, FoldedC, PortValueC;
    SlotShows(p, e.0);
    PairLength(SlotKeyC(p), FoldedC(PortValueC(), l), e);
  }

  lemma PortsCountable(l: Limits, t: Table<PortRef, SlotKey, PortValue>)
    requires SlotsFit(t, l) && |PortTable(l).write(t)| < TWO_32
    ensures Countable(t)
  {
    hide PortRow, Entries, TableOf, Times32;
    forall p | p in t
      ensures |PortRow(l).write((p, Entries(t[p], SlotRank)))| > |t[p]|
    {
      PortRowLength(l, p, t[p]);
    }
    TableLength(PortRow(l), PortRank, SlotRank, Times32(l.maxEndpoints, l.maxPortsPerEndpoint), t);
  }

  // ---- The whole image ----

  lemma HeadCountable(s: RegistryState, l: Limits)
    requires |HeadC(l).write(StateParts(s).0)| < TWO_32
    ensures |s.sources| < TWO_32 && |s.sessions| < TWO_32
  {
    hide Word32, Identity, Signed, OwnerC, SourceRecordC, SessionC, MapOf, Refine, Times32, Shows;
    var p := StateParts(s).0;
    forall x | x in s.sources
      ensures Shows(Pair(Identity(), SourceRecordC(l)), (x, s.sources[x]))
    {
      KeyedShows(Identity(), SourceRecordC(l), (x, s.sources[x])) by { IdentityShows(x); }
    }
    forall o | o in s.sessions
      ensures Shows(Pair(OwnerC(), SessionC()), (o, s.sessions[o]))
    {
      KeyedShows(OwnerC(), SessionC(), (o, s.sessions[o])) by { OwnerShows(o); }
    }
    MapLength(Pair(Identity(), SourceRecordC(l)), IdRank, l.maxSources, s.sources);
    MapLength(Pair(OwnerC(), SessionC()), OwnerRank, Times32(l.maxSources, 64), s.sessions);
    PairLength(SourcesC(l), SessionsC(l), p.1.1.1);
    PairLength(Signed(), Pair(SourcesC(l), SessionsC(l)), p.1.1);
    PairLength(Identity(), Pair(Signed(), Pair(SourcesC(l), SessionsC(l))), p.1);
    PairLength(Refine(Word32(), Current), Pair(Identity(), Pair(Signed(), Pair(SourcesC(l), SessionsC(l)))), p);
  }

  lemma KeyedShows<A, B>(a: Codec<A>, b: Codec<B>, v: (A, B))
    requires Shows(a, v.0)
    ensures Shows(Pair(a, b), v)
  {
    PairLength(a, b, v);
  }

  lemma PlacementsCount(s: RegistryState, l: Limits)
    requires ContentsFit(s, l) && |PlacementsC(l).write(StateParts(s).1.0)| < TWO_32
    ensures PlacementsCountable(s)
  {
    hide Identity, SideRefC, OwnedTable, PortTable, RecordsFit, SlotsFit, Pair, Times32, Countable, SourcesFit,
         ObjectC, EndpointC, SubjectC;
    var p := StateParts(s).1.0;
    PairLength(SubjectsC(l), PortTable(l), p.1.1);
    PairLength(EndpointsC(l), Pair(SubjectsC(l), PortTable(l)), p.1);
    PairLength(ObjectsC(l), Pair(EndpointsC(l), Pair(SubjectsC(l), PortTable(l))), p);
    OwnedCountable(Identity(), ObjectC(l), IdRank, l, l.maxObjects, s.objects);
    OwnedCountable(Identity(), EndpointC(l), IdRank, l, l.maxEndpoints, s.endpoints);
    OwnedCountable(SideRefC(), SubjectC(), SideRank, l, Times32(l.maxObjects, l.maxSidesPerObject), s.subjects);
    PortsCountable(l, s.ports);
  }

  lemma LifetimesCount(s: RegistryState, l: Limits)
    requires ContentsFit(s, l) && |LifetimesC(l).write(StateParts(s).1.1)| < TWO_32
    ensures LifetimesCountable(s)
  {
    hide Identity, PortRefC, OwnedTable, RecordsFit, SlotsFit, Pair, Times32, Countable, SourcesFit;
    hide LifecycleC, ReincarnationC, NominalC, PortCapabilityC;
    var p := StateParts(s).1.1;
    PairLength(NominalsC(l), PortCapabilitiesC(l), p.1.1);
    PairLength(ReincarnationsC(l), Pair(NominalsC(l), PortCapabilitiesC(l)), p.1);
    PairLength(LifecyclesC(l), Pair(ReincarnationsC(l), Pair(NominalsC(l), PortCapabilitiesC(l))), p);
    OwnedCountable(Identity(), LifecycleC(l), IdRank, l, l.maxObjects, s.lifecycles);
    OwnedCountable(Identity(), ReincarnationC(l), IdRank, l, l.maxObjects, s.reincarnations);
    OwnedCountable(Identity(), NominalC(l), IdRank, l, l.maxObjects, s.objectCapabilities);
    OwnedCountable(PortRefC(), PortCapabilityC(l), PortRank, l, Times32(l.maxEndpoints, l.maxPortsPerEndpoint),
      s.portCapabilities);
  }

  /** An image of fewer than 2^32 bytes has no count that overflows its field. */
  lemma SmallImage(s: RegistryState, l: Limits)
    requires ContentsFit(s, l) && |StateC(l).write(s)| < TWO_32
    ensures CountableState(s)
  {
    hide HeadC, PlacementsC, LifetimesC, ContentsFit, Pair, PlacementsCountable, LifetimesCountable;
    var p := StateParts(s);
    PairLength(PlacementsC(l), LifetimesC(l), p.1);
    PairLength(HeadC(l), Pair(PlacementsC(l), LifetimesC(l)), p);
    HeadCountable(s, l);
    PlacementsCount(s, l);
    LifetimesCount(s, l);
  }

  /**
    * An image the encoder writes is read back whole exactly when every count of the state is within
    * its reader's bound, and is refused otherwise.
    */
  lemma WrittenImage(s: RegistryState, l: Limits)
    requires ContentsFit(s, l) && |StateC(l).write(s)| <= ENCODER_CEILING
    ensures Whole(StateC(l), StateC(l).write(s)) == if SizesFit(s, l) then Some(s) else None
  {
    hide ContentsFit, CountableState, SizesFit, StateC;
    SmallImage(s, l);
    ImageRoundTrip(s, l);
  }
}
