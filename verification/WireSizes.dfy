// How many bytes the wire forms take at most.

module WireSizes {
  import opened Words
  import opened LittleEndian
  import opened Evidence
  import opened Ordering
  import opened State
  import opened Codec
  import opened Wire
  import opened Records
  import opened EvidenceCodec
  import opened MapCodec
  import opened StateImage
  import opened ImageSize

  predicate AtMost<T>(c: Codec<T>, v: T, n: nat) { |c.write(v)| <= n }

  lemma PairAtMost<A, B>(a: Codec<A>, b: Codec<B>, v: (A, B), m: nat, n: nat)
    requires AtMost(a, v.0, m) && AtMost(b, v.1, n)
    ensures AtMost(Pair(a, b), v, m + n)
  {
  }

  lemma IsoAtMost<A, B>(c: Codec<A>, to: A -> B, from: B -> A, v: B, n: nat)
    requires AtMost(c, from(v), n)
    ensures AtMost(Iso(c, to, from), v, n)
  {
  }

  lemma RefineAtMost<A>(c: Codec<A>, p: A -> bool, v: A, n: nat)
    requires AtMost(c, v, n)
    ensures AtMost(Refine(c, p), v, n)
  {
  }

  lemma {:induction false} AllAtMost<A>(c: Codec<A>, vs: seq<A>, n: nat)
    requires forall v :: v in vs ==> AtMost(c, v, n)
    ensures |WriteAll(c, vs)| <= |vs| * n
  {
    if vs == [] {
    } else {
      AllAtMost(c, vs[1..], n);
      assert vs[0] in vs && AtMost(c, vs[0], n);
      assert |vs| * n == n + |vs[1..]| * n;
    }
  }

  lemma ListAtMost<A>(c: Codec<A>, max: nat, vs: seq<A>, n: nat)
    requires forall v :: v in vs ==> AtMost(c, v, n)
    ensures AtMost(ListOf(c, max), vs, 4 + |vs| * n)
  {
    hide WriteAll;
    AllAtMost(c, vs, n);
  }

  // ---- Scalars ----

  lemma NumbersAtMost(x: U64, y: U32, z: I64)
    ensures AtMost(Word64(), x, 8) && AtMost(Word32(), y, 4) && AtMost(Signed(), z, 8)
  {
    hide LE;
  }

  lemma SmallAtMost(b: U8, w: U16, f: bool)
    ensures AtMost(Byte(), b, 1) && AtMost(Word16(), w, 2) && AtMost(Flag(), f, 1)
  {
    hide LE;
  }

  lemma IdentityAtMost(x: Id)
    ensures AtMost(Identity(), x, 16)
  {
    hide Word64;
    NumbersAtMost(HighHalf(x), 0, 0);
    NumbersAtMost(LowHalf(x), 0, 0);
    PairAtMost(Word64(), Word64(), (HighHalf(x), LowHalf(x)), 8, 8);
  }

  lemma NoTextAtMost(max: nat)
    ensures AtMost(TextOf(max), [], 4)
  {
    hide LE;
  }

  lemma EnumAtMost<T>(max: U8, to: U8 -> T, from: T -> U8, v: T)
    ensures AtMost(Enum(max, to, from), v, 1)
  {
    hide Byte;
    SmallAtMost(from(v), 0, false);
  }

  lemma KindsAtMost(p: ProvenanceClass, m: MediaClass, c: ConnectorClass, k: ObjectKind, a: AuthorityClass)
    ensures AtMost(ProvenanceC(), p, 1) && AtMost(MediaC(), m, 1) && AtMost(ConnectorC(), c, 1)
    ensures AtMost(ObjectKindC(), k, 1) && AtMost(ClassC(), a, 1)
  {
    hide Enum;
    EnumAtMost(6, (x: U8) => Clip(x, 7) as ProvenanceClass, (x: ProvenanceClass) => x as U8, p);
    EnumAtMost(8, (x: U8) => Clip(x, 9) as MediaClass, (x: MediaClass) => x as U8, m);
    EnumAtMost(18, (x: U8) => Clip(x, 19) as ConnectorClass, (x: ConnectorClass) => x as U8, c);
    EnumAtMost(8, (x: U8) => Clip(x, 9) as ObjectKind, (x: ObjectKind) => x as U8, k);
    EnumAtMost(4, (x: U8) => ClassOf(x), (x: AuthorityClass) => ClassOrdinal(x), a);
  }

  // ---- References and records ----

  lemma OwnerAtMost(o: Owner)
    ensures AtMost(OwnerC(), o, 24)
  {
    hide Identity, Word64;
    IdentityAtMost(o.source);
    NumbersAtMost(o.incarnation, 0, 0);
    PairAtMost(Identity(), Word64(), OwnerParts(o), 16, 8);
  }

  lemma AuthorityAtMost(a: Authority)
    ensures AtMost(AuthorityC(), a, 5)
  {
    hide ClassC, Word32;
    KindsAtMost(0, 0, 0, 0, a.authorityClass);
    NumbersAtMost(0, a.rank, 0);
    PairAtMost(ClassC(), Word32(), AuthorityParts(a), 1, 4);
  }

  lemma AttestationAtMost(a: Attestation)
    ensures AtMost(AttestationC(), a, 79)
  {
    hide OwnerC, Word64, Identity, Signed, ProvenanceC, AuthorityC, Flag, Pair, AtMost;
    var p := AttestationParts(a);
    OwnerAtMost(a.owner);
    NumbersAtMost(a.generation, 0, a.observedAt);
    NumbersAtMost(a.objectIncarnation, 0, a.receivedAt);
    IdentityAtMost(a.evidence);
    KindsAtMost(a.provenance, 0, 0, 0, Speculative);
    AuthorityAtMost(a.authority);
    SmallAtMost(0, 0, a.inLifetime);
    var c1 := Pair(Word64(), Flag());
    PairAtMost(Word64(), Flag(), p.1.1.1.1.1.1.1, 8, 1);
    var c2 := Pair(AuthorityC(), c1);
    PairAtMost(AuthorityC(), c1, p.1.1.1.1.1.1, 5, 9);
    var c3 := Pair(ProvenanceC(), c2);
    PairAtMost(ProvenanceC(), c2, p.1.1.1.1.1, 1, 14);
    var c4 := Pair(Signed(), c3);
    PairAtMost(Signed(), c3, p.1.1.1.1, 8, 15);
    var c5 := Pair(Signed(), c4);
    PairAtMost(Signed(), c4, p.1.1.1, 8, 23);
    var c6 := Pair(Identity(), c5);
    PairAtMost(Identity(), c5, p.1.1, 16, 31);
    PairAtMost(Word64(), c6, p.1, 8, 47);
    PairAtMost(OwnerC(), AttestationRest(), p, 24, 55);
    IsoAtMost(Pair(OwnerC(), AttestationRest()), MakeAttestation, AttestationParts, a, 79);
  }

  /** A record that superseded nothing. */
  lemma FoldedAtMost<V(!new)>(value: Codec<V>, l: Limits, f: Folded<V>, n: nat)
    requires AtMost(value, f.value, n) && f.superseded == []
    ensures AtMost(FoldedC(value, l), f, 87 + n)
  {
    hide AttestationC, ListOf, Word32, Pair, AtMost;
    var ring, p := ListOf(AttestationC(), l.maxHistoryPerKey), FoldedParts(f);
    AttestationAtMost(f.meta);
    ListAtMost(AttestationC(), l.maxHistoryPerKey, [], 0);
    NumbersAtMost(0, f.dropped, 0);
    PairAtMost(ring, Word32(), p.1.1, 4, 4);
    PairAtMost(value, Pair(ring, Word32()), p.1, n, 8);
    PairAtMost(AttestationC(), Pair(value, Pair(ring, Word32())), p, 79, n + 8);
    IsoAtMost(FoldedRaw(value, l), (q: FoldedTuple<V>) => MakeFolded(q), (g: Folded<V>) => FoldedParts(g), f, 87 + n);
  }

  lemma SideAtMost(d: SideDescriptor)
    ensures AtMost(SideC(), d, 4)
  {
    hide ConnectorC, MediaC, Word16, Pair, AtMost;
    var p := SideParts(d);
    KindsAtMost(0, d.media, d.connector, 0, Speculative);
    SmallAtMost(0, d.lanes, false);
    PairAtMost(MediaC(), Word16(), p.1, 1, 2);
    PairAtMost(ConnectorC(), Pair(MediaC(), Word16()), p, 1, 3);
    IsoAtMost(Pair(ConnectorC(), Pair(MediaC(), Word16())), MakeSide, SideParts, d, 4);
  }

  lemma NominalAtMost(c: NominalCapability, l: Limits)
    requires c.code == []
    ensures AtMost(NominalC(l), c, 33)
  {
    hide ConnectorC, MediaC, Word16, Word64, Flag, TextOf, Pair, AtMost;
    var p := NominalParts(c);
    KindsAtMost(0, c.media, c.connector, 0, Speculative);
    SmallAtMost(0, c.lanes, c.reachDeclared);
    NumbersAtMost(c.laneRate, 0, 0);
    NumbersAtMost(c.totalRate, 0, 0);
    NumbersAtMost(c.reach, 0, 0);
    NoTextAtMost(l.maxCodeBytes);
    var c1 := Pair(Flag(), TextOf(l.maxCodeBytes));
    PairAtMost(Flag(), TextOf(l.maxCodeBytes), p.1.1.1.1.1.1, 1, 4);
    var c2 := Pair(Word64(), c1);
    PairAtMost(Word64(), c1, p.1.1.1.1.1, 8, 5);
    var c3 := Pair(Word64(), c2);
    PairAtMost(Word64(), c2, p.1.1.1.1, 8, 13);
    var c4 := Pair(Word64(), c3);
    PairAtMost(Word64(), c3, p.1.1.1, 8, 21);
    var c5 := Pair(Word16(), c4);
    PairAtMost(Word16(), c4, p.1.1, 2, 29);
    PairAtMost(ConnectorC(), c5, p.1, 1, 31);
    PairAtMost(MediaC(), Pair(ConnectorC(), c5), p, 1, 32);
    IsoAtMost(NominalRaw(l), MakeNominal, NominalParts, c, 33);
  }

  /** A descriptor with one side and no texts. */
  lemma ObjectAtMost(d: ObjectDescriptor, l: Limits)
    requires d.physicalLabel == [] && d.serial == [] && d.location == [] && d.capability.code == [] && |d.sides| == 1
    ensures AtMost(ObjectC(l), d, 70)
  {
    hide Identity, ObjectKindC, ListOf, SideC, NominalC, TextOf, Pair, AtMost, Refine, Iso;
    var p, text, sides := ObjectParts(d), TextOf(l.maxStringBytes), ListOf(SideC(), l.maxSidesPerObject);
    IdentityAtMost(d.id);
    KindsAtMost(0, 0, 0, d.kind, Speculative);
    NoTextAtMost(l.maxStringBytes);
    NominalAtMost(d.capability, l);
    SidesAtMost(d.sides, l.maxSidesPerObject);
    var c1 := Pair(sides, NominalC(l));
    PairAtMost(sides, NominalC(l), p.1.1.1.1.1, 8, 33);
    var c2 := Pair(text, c1);
    PairAtMost(text, c1, p.1.1.1.1, 4, 41);
    var c3 := Pair(text, c2);
    PairAtMost(text, c2, p.1.1.1, 4, 45);
    var c4 := Pair(text, c3);
    PairAtMost(text, c3, p.1.1, 4, 49);
    PairAtMost(ObjectKindC(), c4, p.1, 1, 53);
    PairAtMost(Identity(), Pair(ObjectKindC(), c4), p, 16, 54);
    IsoAtMost(ObjectRaw(l), MakeObject, ObjectParts, d, 70);
    RefineAtMost(Iso(ObjectRaw(l), MakeObject, ObjectParts), ObjectNamed, d, 70);
  }

  lemma SidesAtMost(sides: seq<SideDescriptor>, max: nat)
    requires |sides| == 1
    ensures AtMost(ListOf(SideC(), max), sides, 8)
  {
    hide SideC, ListOf, AtMost;
    forall s | s in sides
      ensures AtMost(SideC(), s, 4)
    {
      SideAtMost(s);
    }
    ListAtMost(SideC(), max, sides, 4);
  }

  lemma SourceAtMost(d: SourceDescriptor, l: Limits)
    requires d.name == [] && d.domain == []
    ensures AtMost(SourceC(l), d, 29)
  {
    hide Identity, AuthorityC, TextOf, Pair, AtMost, Refine, Iso;
    var p, text := SourceParts(d), TextOf(l.maxStringBytes);
    IdentityAtMost(d.id);
    AuthorityAtMost(d.authority);
    NoTextAtMost(l.maxStringBytes);
    PairAtMost(AuthorityC(), text, p.1.1, 5, 4);
    PairAtMost(text, Pair(AuthorityC(), text), p.1, 4, 9);
    PairAtMost(Identity(), Pair(text, Pair(AuthorityC(), text)), p, 16, 13);
    IsoAtMost(SourceRaw(l), MakeSource, SourceParts, d, 29);
    RefineAtMost(Iso(SourceRaw(l), MakeSource, SourceParts), SourceNamed, d, 29);
  }

  lemma SourceRecordAtMost(r: SourceRecord, l: Limits)
    requires r.descriptor.name == [] && r.descriptor.domain == []
    ensures AtMost(SourceRecordC(l), r, 46)
  {
    hide SourceC, Word64, Flag, Pair, AtMost;
    var p := SourceRecordParts(r);
    SourceAtMost(r.descriptor, l);
    NumbersAtMost(p.1.0, 0, 0);
    NumbersAtMost(p.1.1.0, 0, 0);
    SmallAtMost(0, 0, p.1.1.1);
    PairAtMost(Word64(), Flag(), p.1.1, 8, 1);
    PairAtMost(Word64(), Pair(Word64(), Flag()), p.1, 8, 9);
    PairAtMost(SourceC(l), Pair(Word64(), Pair(Word64(), Flag())), p, 29, 17);
    IsoAtMost(Pair(SourceC(l), Pair(Word64(), Pair(Word64(), Flag()))), MakeSourceRecord, SourceRecordParts, r, 46);
  }

  lemma SessionAtMost(r: SessionRecord)
    ensures AtMost(SessionC(), r, 50)
  {
    hide Signed, Word64, Flag, Pair, AtMost;
    var p := SessionParts(r);
    NumbersAtMost(p.1.0, 0, p.0);
    NumbersAtMost(p.1.1.1.1.0, 0, 0);
    NumbersAtMost(p.1.1.1.1.1.0, 0, 0);
    NumbersAtMost(p.1.1.1.1.1.1.0, 0, 0);
    NumbersAtMost(p.1.1.1.1.1.1.1, 0, 0);
    SmallAtMost(0, 0, p.1.1.0);
    SmallAtMost(0, 0, p.1.1.1.0);
    var c1 := Pair(Word64(), Word64());
    PairAtMost(Word64(), Word64(), p.1.1.1.1.1.1, 8, 8);
    var c2 := Pair(Word64(), c1);
    PairAtMost(Word64(), c1, p.1.1.1.1.1, 8, 16);
    var c3 := Pair(Word64(), c2);
    PairAtMost(Word64(), c2, p.1.1.1.1, 8, 24);
    var c4 := Pair(Flag(), c3);
    PairAtMost(Flag(), c3, p.1.1.1, 1, 32);
    var c5 := Pair(Flag(), c4);
    PairAtMost(Flag(), c4, p.1.1, 1, 33);
    PairAtMost(Word64(), c5, p.1, 8, 34);
    PairAtMost(Signed(), Pair(Word64(), c5), p, 8, 42);
    IsoAtMost(SessionRaw(), MakeSession, SessionParts, r, 50);
  }

  lemma HeaderAtMost(e: Header, l: Limits)
    requires e.detail == []
    ensures AtMost(HeaderC(l), e, 65)
  {
    hide Identity, Word64, Signed, ProvenanceC, TextOf, Word32, Pair, AtMost, Refine, Iso;
    var p, text := HeaderParts(e), TextOf(l.maxStringBytes);
    IdentityAtMost(e.id);
    IdentityAtMost(e.source);
    NumbersAtMost(e.incarnation, e.schemaVersion, e.observedAt);
    NumbersAtMost(e.generation, 0, 0);
    KindsAtMost(e.provenance, 0, 0, 0, Speculative);
    NoTextAtMost(l.maxStringBytes);
    var c1 := Pair(text, Word32());
    PairAtMost(text, Word32(), p.1.1.1.1.1.1, 4, 4);
    var c2 := Pair(ProvenanceC(), c1);
    PairAtMost(ProvenanceC(), c1, p.1.1.1.1.1, 1, 8);
    var c3 := Pair(Signed(), c2);
    PairAtMost(Signed(), c2, p.1.1.1.1, 8, 9);
    var c4 := Pair(Word64(), c3);
    PairAtMost(Word64(), c3, p.1.1.1, 8, 17);
    var c5 := Pair(Word64(), c4);
    PairAtMost(Word64(), c4, p.1.1, 8, 25);
    PairAtMost(Identity(), c5, p.1, 16, 33);
    PairAtMost(Identity(), Pair(Identity(), c5), p, 16, 49);
    IsoAtMost(HeaderRaw(l), MakeHeader, HeaderParts, e, 65);
    RefineAtMost(Iso(HeaderRaw(l), MakeHeader, HeaderParts), HeaderNamed, e, 65);
  }

  /** The evidence of a registration without texts. */
  lemma RegistrationAtMost(e: Evidence, l: Limits)
    requires e.payload.RegisterObject? && e.header.detail == []
    requires var d := e.payload.objectDescriptor;
             d.physicalLabel == [] && d.serial == [] && d.location == [] && d.capability.code == [] && |d.sides| == 1
    ensures AtMost(EvidenceC(l), e, 137)
  {
    hide HeaderC, Word16, ObjectC, Pair, AtMost;
    HeaderAtMost(e.header, l);
    ObjectAtMost(e.payload.objectDescriptor, l);
    SmallAtMost(0, KindOf(e.payload), false);
    var forms := (k: U16) => PayloadC(l, k);
    IsoAtMost(ObjectC(l), ToRegisterObject, FromRegisterObject, e.payload, 70);
    RefineAtMost(KindC(l, 1), Dated, e.payload, 70);
    DependAtMost(Word16(), forms, (1, e.payload), 2, 70);
    assert EvidenceParts(e) == (e.header, (1, e.payload));
    PairAtMost(HeaderC(l), Depend(Word16(), forms), EvidenceParts(e), 65, 72);
    IsoAtMost(EvidenceRaw(l), MakeEvidence, EvidenceParts, e, 137);
  }

  lemma DependAtMost<A, B>(a: Codec<A>, f: A -> Codec<B>, v: (A, B), m: nat, n: nat)
    requires AtMost(a, v.0, m) && AtMost(f(v.0), v.1, n)
    ensures AtMost(Depend(a, f), v, m + n)
  {
  }

  // ---- Maps and tables ----

  lemma MapAtMost<K(!new), V(!new)>(entry: Codec<(K, V)>, rank: K -> int, max: nat, m: map<K, V>, n: nat)
    requires forall k :: k in m ==> AtMost(entry, (k, m[k]), n)
    ensures AtMost(MapOf(entry, rank, max), m, 4 + |m| * n)
  {
    hide Entries, Collect, AtMost, ListOf;
    EntriesMembers(m, rank);
    forall e | e in Entries(m, rank)
      ensures AtMost(entry, e, n)
    {
      assert e == (e.0, m[e.0]);
    }
    ListAtMost(entry, max, Entries(m, rank), n);
    IsoAtMost(ListOf(entry, max), (es: seq<(K, V)>) => Collect(es), (x: map<K, V>) => Entries(x, rank), m,
      4 + |m| * n);
  }

  lemma TableAtMost<P(!new), K(!new), V(!new)>(row: Codec<(P, seq<(K, V)>)>, prank: P -> int, krank: K -> int, max: nat,
                                               t: map<P, map<K, V>>, n: nat)
    requires forall p :: p in t ==> AtMost(row, (p, Entries(t[p], krank)), n)
    ensures AtMost(TableOf(row, prank, krank, max), t, 4 + |t| * n)
  {
    hide Entries, Unnest, Nest, AtMost, ListOf;
    RowsMembers(t, prank, krank);
    var rows := Unnest(t, prank, krank);
    forall r | r in rows
      ensures AtMost(row, r, n)
    {
      assert r == (r.0, Entries(t[r.0], krank));
    }
    ListAtMost(row, max, rows, n);
    IsoAtMost(ListOf(row, max), (q: Rows<P, K, V>) => Nest(q), (u: map<P, map<K, V>>) => Unnest(u, prank, krank), t,
      4 + |t| * n);
  }

  lemma OwnedRowAtMost<P(!new), V(!new)>(primary: Codec<P>, value: Codec<V>, l: Limits, p: P,
                                         group: map<Owner, Folded<V>>, m: nat, n: nat)
    requires AtMost(primary, p, m) && |group| <= 2
    requires forall o :: o in group ==> AtMost(value, group[o].value, n) && group[o].superseded == []
    ensures AtMost(OwnedRow(primary, value, l), (p, Entries(group, OwnerRank)), m + 226 + 2 * n)
  {
    hide OwnerC, FoldedC, ListOf, Entries, AtMost, Pair;
    var entries := Entries(group, OwnerRank);
    EntriesMembers(group, OwnerRank);
    forall e | e in entries
      ensures AtMost(OwnedEntry(value, l), e, 111 + n)
    {
      OwnerAtMost(e.0);
      FoldedAtMost(value, l, e.1, n);
      PairAtMost(OwnerC(), FoldedC(value, l), e, 24, 87 + n);
    }
    PairListAtMost(OwnedEntry(value, l), l.maxSources, entries, 111 + n);
    PairAtMost(primary, ListOf(OwnedEntry(value, l), l.maxSources), (p, entries), m, 226 + 2 * n);
  }

  lemma PairListAtMost<A>(c: Codec<A>, max: nat, vs: seq<A>, n: nat)
    requires |vs| <= 2 && forall v :: v in vs ==> AtMost(c, v, n)
    ensures AtMost(ListOf(c, max), vs, 4 + 2 * n)
  {
    hide ListOf;
    ListAtMost(c, max, vs, n);
    assert |vs| * n <= 2 * n;
  }

  /** One group of at most two records that superseded nothing. */
  lemma OneGroupAtMost<P(!new), V(!new)>(primary: Codec<P>, value: Codec<V>, prank: P -> int, l: Limits, max: nat,
                                         t: Table<P, Owner, V>, m: nat, n: nat)
    requires |t| <= 1 && forall p :: p in t ==> AtMost(primary, p, m) && |t[p]| <= 2
    requires forall p, o :: p in t && o in t[p] ==> AtMost(value, t[p][o].value, n) && t[p][o].superseded == []
    ensures AtMost(OwnedTable(primary, value, prank, l, max), t, m + 230 + 2 * n)
  {
    hide OwnedRow, AtMost, TableOf, Entries;
    var k := m + 226 + 2 * n;
    forall p | p in t
      ensures AtMost(OwnedRow(primary, value, l), (p, Entries(t[p], OwnerRank)), k)
    {
      OwnedRowAtMost(primary, value, l, p, t[p], m, n);
    }
    TableAtMost(OwnedRow(primary, value, l), prank, OwnerRank, max, t, k);
    assert |t| * k <= k;
    MoreAtMost(OwnedTable(primary, value, prank, l, max), t, 4 + |t| * k, 4 + k);
  }

  lemma MoreAtMost<T>(c: Codec<T>, v: T, m: nat, n: nat)
    requires AtMost(c, v, m) && m <= n
    ensures AtMost(c, v, n)
  {
  }

  /** A table without records is a count. */
  lemma NoRecordsAtMost<P(!new), V(!new)>(primary: Codec<P>, value: Codec<V>, prank: P -> int, l: Limits, max: nat)
    ensures AtMost(OwnedTable(primary, value, prank, l, max), map[], 4)
  {
    hide OwnedRow, TableOf, AtMost;
    TableAtMost(OwnedRow(primary, value, l), prank, OwnerRank, max, map[], 0);
  }

  lemma NoSlotsAtMost(l: Limits)
    ensures AtMost(PortTable(l), map[], 4)
  {
    hide PortRow, TableOf, AtMost, Times32;
    TableAtMost(PortRow(l), PortRank, SlotRank, Times32(l.maxEndpoints, l.maxPortsPerEndpoint), map[], 0);
  }
}
