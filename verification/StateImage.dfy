// The state image: sorted maps of folded records, written group by group.

// Maps written as counted, sorted entry lists and read back by emplacing entries in turn.
module MapCodec {
  import opened Words
  import opened Ordering
  import opened State
  import opened Codec

  /** The entries of a map in ascending key rank. */
  ghost function Entries<K(!new), V>(m: map<K, V>, rank: K -> int): (r: seq<(K, V)>)
    ensures |r| == |m|
  {
    var keys := Sorted(m.Keys, rank);
    assert forall i :: 0 <= i < |keys| ==> keys[i] in keys;
    seq(|keys|, i requires 0 <= i < |keys| => (keys[i], m[keys[i]]))
  }

  /** Emplacing entries in turn: the first entry of a key stays. */
  function Collect<K, V>(es: seq<(K, V)>): map<K, V>
  {
    if es == [] then map[] else Collect(es[1..])[es[0].0 := es[0].1]
  }

  lemma EntriesMembers<K(!new), V>(m: map<K, V>, rank: K -> int)
    ensures forall e :: e in Entries(m, rank) ==> e.0 in m && m[e.0] == e.1
    ensures forall k :: k in m ==> (k, m[k]) in Entries(m, rank)
  {
    var keys := Sorted(m.Keys, rank);
    var es := Entries(m, rank);
    assert forall i :: 0 <= i < |keys| ==> keys[i] in keys;
    forall k | k in m
      ensures (k, m[k]) in es
    {
      assert k in keys;
      var i :| 0 <= i < |keys| && keys[i] == k;
      assert es[i] == (k, m[k]);
    }
  }

  lemma EntriesStep<K(!new), V>(m: map<K, V>, rank: K -> int)
    requires m != map[]
    ensures m.Keys != {} && var k := Least(m.Keys, rank);
            Entries(m, rank) == [(k, m[k])] + Entries(m - {k}, rank) && |m - {k}| < |m|
  {
    assert m.Keys != {};
    var k := Least(m.Keys, rank);
    var rest := m - {k};
    assert rest.Keys == m.Keys - {k};
    var keys, tail := Sorted(m.Keys, rank), Sorted(rest.Keys, rank);
    assert keys == [k] + tail;
    var a, b := Entries(m, rank), [(k, m[k])] + Entries(rest, rank);
    forall i | 0 <= i < |keys|
      ensures a[i] == b[i]
    {
      if i > 0 { assert tail[i - 1] in tail; }
    }
    assert |rest| == |rest.Keys| && |m| == |m.Keys|;
  }

  lemma {:induction false} CollectEntries<K(!new), V>(m: map<K, V>, rank: K -> int)
    ensures Collect(Entries(m, rank)) == m
    decreases |m|
  {
    hide Entries, Collect;
    if m == map[] {
      CollectNothing(Entries(m, rank));
    } else {
      EntriesStep(m, rank);
      var k := Least(m.Keys, rank);
      var rest := m - {k};
      CollectEntries(rest, rank);
      CollectStep((k, m[k]), Entries(rest, rank));
      assert m == rest[k := m[k]];
    }
  }

  lemma CollectNothing<K, V>(es: seq<(K, V)>)
    requires |es| == 0
    ensures Collect(es) == map[]
  {
  }

  lemma CollectStep<K, V>(e: (K, V), es: seq<(K, V)>)
    ensures Collect([e] + es) == Collect(es)[e.0 := e.1]
  {
    assert ([e] + es)[1..] == es;
  }

  /** A bounded map of entries. */
  ghost function MapOf<K(!new), V(!new)>(entry: Codec<(K, V)>, rank: K -> int, max: nat): Codec<map<K, V>>
  {
    Iso(ListOf(entry, max), (es: seq<(K, V)>) => Collect(es), (m: map<K, V>) => Entries(m, rank))
  }

  lemma MapPrints<K(!new), V(!new)>(entry: Codec<(K, V)>, rank: K -> int, max: nat)
    requires Prints(entry)
    ensures Prints(MapOf(entry, rank, max))
  {
    hide Prints;
    ListPrints(entry, max);
    IsoPrints(ListOf(entry, max), (es: seq<(K, V)>) => Collect(es), (m: map<K, V>) => Entries(m, rank));
  }

  lemma MapAccepts<K(!new), V(!new)>(entry: Codec<(K, V)>, rank: K -> int, max: nat, m: map<K, V>)
    ensures MapOf(entry, rank, max).sound(m) <==> |m| < TWO_32 && forall k :: k in m ==> entry.sound((k, m[k]))
    ensures MapOf(entry, rank, max).valid(m) <==> |m| <= max && forall k :: k in m ==> entry.valid((k, m[k]))
  {
    hide Entries, Collect;
    CollectEntries(m, rank);
    EntriesMembers(m, rank);
    ListMembers(entry, max, Entries(m, rank));
  }

  // ---- Tables ----

  type Rows<P, K, V> = seq<(P, seq<(K, V)>)>

  /** Rows of one primary key land in one group; within it the first entry of a key stays. */
  function Nest<P, K, V>(rows: Rows<P, K, V>): map<P, map<K, V>>
  {
    if rows == [] then map[]
    else
      var rest := Nest(rows[1..]);
      var p := rows[0].0;
      rest[p := (if p in rest then rest[p] else map[]) + Collect(rows[0].1)]
  }

  ghost function Unnest<P(!new), K(!new), V>(t: map<P, map<K, V>>, prank: P -> int, krank: K -> int): (r: Rows<P, K, V>)
    ensures |r| == |t|
  {
    RowsOf(Entries(t, prank), krank)
  }

  /** Each group of records in order. */
  ghost function RowsOf<P(!new), K(!new), V>(es: seq<(P, map<K, V>)>, krank: K -> int): (r: Rows<P, K, V>)
    ensures |r| == |es|
  {
    seq(|es|, i requires 0 <= i < |es| => (es[i].0, Entries(es[i].1, krank)))
  }

  lemma RowsStep<P(!new), K(!new), V>(p: P, group: map<K, V>, es: seq<(P, map<K, V>)>, krank: K -> int)
    ensures RowsOf([(p, group)] + es, krank) == [(p, Entries(group, krank))] + RowsOf(es, krank)
  {
    hide Entries;
  }

  lemma UnnestStep<P(!new), K(!new), V>(t: map<P, map<K, V>>, prank: P -> int, krank: K -> int)
    requires t != map[]
    ensures t.Keys != {} && var p := Least(t.Keys, prank);
            Unnest(t, prank, krank) == [(p, Entries(t[p], krank))] + Unnest(t - {p}, prank, krank) && |t - {p}| < |t|
  {
    hide Entries, RowsOf;
    EntriesStep(t, prank);
    var p := Least(t.Keys, prank);
    RowsStep(p, t[p], Entries(t - {p}, prank), krank);
  }

  lemma NestStep<P, K, V>(row: (P, seq<(K, V)>), rows: Rows<P, K, V>)
    requires row.0 !in Nest(rows)
    ensures Nest([row] + rows) == Nest(rows)[row.0 := Collect(row.1)]
  {
    assert ([row] + rows)[1..] == rows;
    assert map[] + Collect(row.1) == Collect(row.1);
  }

  lemma {:induction false} NestUnnest<P(!new), K(!new), V>(t: map<P, map<K, V>>, prank: P -> int, krank: K -> int)
    ensures Nest(Unnest(t, prank, krank)) == t
    decreases |t|
  {
    hide Entries, Unnest, Collect, Nest;
    if t == map[] {
      NestNothing(t, prank, krank);
    } else {
      UnnestStep(t, prank, krank);
      var p := Least(t.Keys, prank);
      var rest := t - {p};
      NestUnnest(rest, prank, krank);
      CollectEntries(t[p], krank);
      NestStep((p, Entries(t[p], krank)), Unnest(rest, prank, krank));
      assert t == rest[p := t[p]];
    }
  }

  lemma NestNothing<P(!new), K(!new), V>(t: map<P, map<K, V>>, prank: P -> int, krank: K -> int)
    requires t == map[]
    ensures Nest(Unnest(t, prank, krank)) == t
  {
    assert Unnest(t, prank, krank) == [];
  }

  /** encode_group(): primary keys in order, each with its records in order. */
  ghost function TableOf<P(!new), K(!new), V(!new)>(row: Codec<(P, seq<(K, V)>)>, prank: P -> int, krank: K -> int,
                                                    max: nat): Codec<map<P, map<K, V>>>
  {
    Iso(ListOf(row, max), (rows: Rows<P, K, V>) => Nest(rows), (t: map<P, map<K, V>>) => Unnest(t, prank, krank))
  }

  /** The table codec inherits its round trip from the codec of its rows. */
  lemma TablePrints<P(!new), K(!new), V(!new)>(row: Codec<(P, seq<(K, V)>)>, prank: P -> int, krank: K -> int, max: nat)
    requires Prints(row)
    ensures Prints(TableOf(row, prank, krank, max))
  {
    hide Prints;
    ListPrints(row, max);
    IsoPrints(ListOf(row, max), (rows: Rows<P, K, V>) => Nest(rows), (t: map<P, map<K, V>>) => Unnest(t, prank, krank));
  }

  lemma TableAccepts<P(!new), K(!new), V(!new)>(row: Codec<(P, seq<(K, V)>)>, prank: P -> int, krank: K -> int,
                                                max: nat, t: map<P, map<K, V>>)
    ensures TableOf(row, prank, krank, max).sound(t) <==> |t| < TWO_32 && forall p :: p in t ==>
            row.sound((p, Entries(t[p], krank)))
    ensures TableOf(row, prank, krank, max).valid(t) <==> |t| <= max && forall p :: p in t ==>
            row.valid((p, Entries(t[p], krank)))
  {
    hide Entries, Unnest, Nest;
    NestUnnest(t, prank, krank);
    RowsMembers(t, prank, krank);
    ListMembers(row, max, Unnest(t, prank, krank));
  }

  lemma RowsMembers<P(!new), K(!new), V>(t: map<P, map<K, V>>, prank: P -> int, krank: K -> int)
    ensures forall r :: r in Unnest(t, prank, krank) ==> r.0 in t && r.1 == Entries(t[r.0], krank)
    ensures forall p :: p in t ==> (p, Entries(t[p], krank)) in Unnest(t, prank, krank)
  {
    EntriesMembers(t, prank);
    hide Entries;
    var es, rows := Entries(t, prank), Unnest(t, prank, krank);
    forall r | r in rows
      ensures r.0 in t && r.1 == Entries(t[r.0], krank)
    {
      var i :| 0 <= i < |rows| && rows[i] == r;
      assert es[i] in es;
    }
    forall p | p in t
      ensures (p, Entries(t[p], krank)) in rows
    {
      assert (p, t[p]) in es;
      var i :| 0 <= i < |es| && es[i] == (p, t[p]);
      assert rows[i] == (p, Entries(t[p], krank));
    }
  }

  lemma ListMembers<A>(c: Codec<A>, max: nat, vs: seq<A>)
    ensures ListOf(c, max).sound(vs) <==> |vs| < TWO_32 && forall v :: v in vs ==> c.sound(v)
    ensures ListOf(c, max).valid(vs) <==> |vs| <= max && forall v :: v in vs ==> c.valid(v)
  {
    assert forall i :: 0 <= i < |vs| ==> vs[i] in vs;
  }
}

// The wire form of a whole registry state.
module StateImage {
  import opened Words
  import opened Evidence
  import opened Ordering
  import opened State
  import opened Codec
  import opened Wire
  import opened Records
  import opened MapCodec

  // ---- Records ----

  type AttestationTuple = (Owner, (U64, (Id, (I64, (I64, (ProvenanceClass, (Authority, (U64, bool))))))))
  function MakeAttestation(p: AttestationTuple): Attestation
  {
    Attestation(p.0, p.1.0, p.1.1.0, p.1.1.1.0, p.1.1.1.1.0, p.1.1.1.1.1.0, p.1.1.1.1.1.1.0, p.1.1.1.1.1.1.1.0,
      p.1.1.1.1.1.1.1.1)
  }
  function AttestationParts(a: Attestation): AttestationTuple
  {
    (a.owner, (a.generation, (a.evidence, (a.observedAt,
      (a.receivedAt, (a.provenance, (a.authority, (a.objectIncarnation, a.inLifetime))))))))
  }
  function AttestationRest(): Codec<(U64, (Id, (I64, (I64, (ProvenanceClass, (Authority, (U64, bool)))))))>
  {
    Pair(Word64(), Pair(Identity(), Pair(Signed(), Pair(Signed(),
      Pair(ProvenanceC(), Pair(AuthorityC(), Pair(Word64(), Flag())))))))
  }
  function AttestationC(): Codec<Attestation>
  {
    Iso(Pair(OwnerC(), AttestationRest()), MakeAttestation, AttestationParts)
  }

  lemma AttestationRestLawful()
    ensures Lawful(AttestationRest()) && Total(AttestationRest())
  {
    hide Lawful, Total, Word64, Identity, Signed, ProvenanceC, AuthorityC, Flag;
    ScalarsLawful();
    ScalarsTotal();
    IdentityLawful();
    SignedLawful();
    KindsLawful();
    ReferencesLawful();
    ReferencesTotal();
    FlagLawful();
    var a := Pair(Word64(), Flag());
    PairLawful(Word64(), Flag());
    PairTotal(Word64(), Flag());
    var b := Pair(AuthorityC(), a);
    PairLawful(AuthorityC(), a);
    PairTotal(AuthorityC(), a);
    var c := Pair(ProvenanceC(), b);
    PairLawful(ProvenanceC(), b);
    PairTotal(ProvenanceC(), b);
    var d := Pair(Signed(), c);
    PairLawful(Signed(), c);
    PairTotal(Signed(), c);
    PairLawful(Signed(), d);
    PairTotal(Signed(), d);
    var e := Pair(Identity(), Pair(Signed(), d));
    PairLawful(Identity(), Pair(Signed(), d));
    PairTotal(Identity(), Pair(Signed(), d));
    PairLawful(Word64(), e);
    PairTotal(Word64(), e);
  }

  lemma AttestationLawful()
    ensures Lawful(AttestationC())
    ensures forall a :: Accepts(AttestationC(), a) <==> OwnerNamed(a.owner)
    ensures forall a {:trigger AttestationC().sound(a)} :: AttestationC().sound(a)
  {
    hide Lawful, Total, OwnerC, AttestationRest;
    ReferencesLawful();
    ReferencesTotal();
    AttestationRestLawful();
    PairLawful(OwnerC(), AttestationRest());
    IsoLawful(Pair(OwnerC(), AttestationRest()), MakeAttestation, AttestationParts);
    forall a
      ensures Accepts(AttestationC(), a) <==> OwnerNamed(a.owner)
      ensures AttestationC().sound(a)
    {
      var p := AttestationParts(a);
      TotalAccepts(AttestationRest(), p.1);
      PairAccepts(OwnerC(), AttestationRest(), p);
      IsoAccepts(Pair(OwnerC(), AttestationRest()), MakeAttestation, AttestationParts, a);
      OwnerSound(a.owner);
    }
  }

  /** Any owner can be written; only a named one is read back. */
  lemma OwnerSound(o: Owner)
    ensures OwnerC().sound(o)
  {
    hide Identity, Word64;
    IdentityLawful();
    ScalarsTotal();
    TotalAccepts(Identity(), o.source);
    TotalAccepts(Word64(), o.incarnation);
    PairAccepts(Identity(), Word64(), OwnerParts(o));
    IsoAccepts(Pair(Identity(), Word64()), MakeOwner, OwnerParts, o);
  }

  type FoldedTuple<V> = (Attestation, (V, (seq<Attestation>, U32)))
  function MakeFolded<V>(p: FoldedTuple<V>): Folded<V> { Folded(p.0, p.1.0, p.1.1.0, p.1.1.1) }
  function FoldedParts<V>(f: Folded<V>): FoldedTuple<V> { (f.meta, (f.value, (f.superseded, f.dropped))) }
  function FoldedRaw<V>(value: Codec<V>, l: Limits): Codec<FoldedTuple<V>>
  {
    Pair(AttestationC(), Pair(value, Pair(ListOf(AttestationC(), l.maxHistoryPerKey), Word32())))
  }
  /** encode_folded() */
  function FoldedC<V(==)>(value: Codec<V>, l: Limits): Codec<Folded<V>>
  {
    Iso(FoldedRaw(value, l), (p: FoldedTuple<V>) => MakeFolded(p), (f: Folded<V>) => FoldedParts(f))
  }

  lemma FoldedPrints<V(!new)>(value: Codec<V>, l: Limits)
    requires Prints(value)
    ensures Prints(FoldedC(value, l))
  {
    hide Prints, AttestationC, ListOf, Word32;
    AttestationLawful();
    ScalarsLawful();
    ListPrints(AttestationC(), l.maxHistoryPerKey);
    PairPrints(ListOf(AttestationC(), l.maxHistoryPerKey), Word32());
    PairPrints(value, Pair(ListOf(AttestationC(), l.maxHistoryPerKey), Word32()));
    PairPrints(AttestationC(), Pair(value, Pair(ListOf(AttestationC(), l.maxHistoryPerKey), Word32())));
    IsoPrints(FoldedRaw(value, l), (p: FoldedTuple<V>) => MakeFolded(p), (f: Folded<V>) => FoldedParts(f));
  }

  /** A record's owner is named, its ring fits, and so do the owners in it. */
  predicate RecordFits<V>(f: Folded<V>, l: Limits)
  {
    OwnerNamed(f.meta.owner) && |f.superseded| <= l.maxHistoryPerKey && forall a :: a in f.superseded ==>
      OwnerNamed(a.owner)
  }

  lemma FoldedAccepts<V(!new)>(value: Codec<V>, l: Limits, f: Folded<V>)
    ensures FoldedC(value, l).sound(f) <==> value.sound(f.value) && |f.superseded| < TWO_32
    ensures FoldedC(value, l).valid(f) <==> value.valid(f.value) && RecordFits(f, l)
  {
    hide AttestationC, Word32, ListOf, Pair, Iso;
    AttestationLawful();
    ScalarsTotal();
    TotalAccepts(Word32(), f.dropped);
    assert AttestationC().sound(f.meta);
    assert Accepts(AttestationC(), f.meta) <==> OwnerNamed(f.meta.owner);
    RingAccepts(l, f.superseded);
    var ring, p := ListOf(AttestationC(), l.maxHistoryPerKey), FoldedParts(f);
    PairAccepts(ring, Word32(), p.1.1);
    PairAccepts(value, Pair(ring, Word32()), p.1);
    PairAccepts(AttestationC(), Pair(value, Pair(ring, Word32())), p);
    IsoAccepts(FoldedRaw(value, l), (q: FoldedTuple<V>) => MakeFolded(q), (g: Folded<V>) => FoldedParts(g), f);
  }

  lemma RingAccepts(l: Limits, ring: seq<Attestation>)
    ensures ListOf(AttestationC(), l.maxHistoryPerKey).sound(ring) <==> |ring| < TWO_32
    ensures ListOf(AttestationC(), l.maxHistoryPerKey).valid(ring) <==> |ring| <= l.maxHistoryPerKey && forall a ::
            a in ring ==> OwnerNamed(a.owner)
  {
    hide AttestationC;
    AttestationLawful();
    ListMembers(AttestationC(), l.maxHistoryPerKey, ring);
    forall a | a in ring
      ensures AttestationC().sound(a) && (AttestationC().valid(a) <==> OwnerNamed(a.owner))
    {
      assert Accepts(AttestationC(), a) <==> OwnerNamed(a.owner);
    }
  }

  // ---- Values ----

  type SubjectTuple = (U64, (bool, (PortRef, (U32, (bool, PortRef)))))
  function MakeSubject(p: SubjectTuple): SubjectValue
  {
    SubjectValue(p.0, p.1.0, p.1.1.0, p.1.1.1.0, p.1.1.1.1.0, p.1.1.1.1.1)
  }
  function SubjectParts(v: SubjectValue): SubjectTuple
  {
    (v.objectIncarnation, (v.attached, (v.port, (v.slot, (v.viaMove, v.moveFrom)))))
  }
  function SubjectRaw(): Codec<SubjectTuple>
  {
    Pair(Word64(), Pair(Flag(), Pair(PortRefC(), Pair(Word32(), Pair(Flag(), PortRefC())))))
  }
  predicate SubjectDated(v: SubjectValue) { v.objectIncarnation != 0 }
  function SubjectC(): Codec<SubjectValue> { Refine(Iso(SubjectRaw(), MakeSubject, SubjectParts), SubjectDated) }

  type PortValueTuple = (U64, (bool, SideRef))
  function MakePortValue(p: PortValueTuple): PortValue { PortValue(p.0, p.1.0, p.1.1) }
  function PortValueParts(v: PortValue): PortValueTuple { (v.objectIncarnation, (v.empty, v.subject)) }
  function PortValueC(): Codec<PortValue>
  {
    Iso(Pair(Word64(), Pair(Flag(), SideRefC())), MakePortValue, PortValueParts)
  }

  type LifecycleTuple = (U64, (LifecycleAction, Text))
  function MakeLifecycle(p: LifecycleTuple): LifecycleValue { LifecycleValue(p.0, p.1.0, p.1.1) }
  function LifecycleParts(v: LifecycleValue): LifecycleTuple { (v.objectIncarnation, (v.action, v.reason)) }
  function LifecycleC(l: Limits): Codec<LifecycleValue>
  {
    Iso(Pair(Word64(), Pair(ActionC(), TextOf(l.maxStringBytes))), MakeLifecycle, LifecycleParts)
  }

  type ReincarnationTuple = (U64, (U64, (Text, Text)))
  function MakeReincarnation(p: ReincarnationTuple): ReincarnationValue
  {
    ReincarnationValue(p.0, p.1.0, p.1.1.0, p.1.1.1)
  }
  function ReincarnationParts(v: ReincarnationValue): ReincarnationTuple { (v.from, (v.target, (v.serial, v.reason))) }
  predicate ReincarnationStep(v: ReincarnationValue) { v.from != 0 && v.target == TargetOf(v.from) }
  function ReincarnationRaw(l: Limits): Codec<ReincarnationTuple>
  {
    Pair(Word64(), Pair(Word64(), Pair(TextOf(l.maxStringBytes), TextOf(l.maxStringBytes))))
  }
  function ReincarnationC(l: Limits): Codec<ReincarnationValue>
  {
    Refine(Iso(ReincarnationRaw(l), MakeReincarnation, ReincarnationParts), ReincarnationStep)
  }

  lemma PlacementValuesLawful()
    ensures Lawful(SubjectC()) && Lawful(PortValueC())
  {
    hide Lawful, Word64, Word32, Flag, PortRefC, SideRefC;
    ScalarsLawful();
    FlagLawful();
    ReferencesLawful();
    PairLawful(Flag(), PortRefC());
    PairLawful(Word32(), Pair(Flag(), PortRefC()));
    PairLawful(PortRefC(), Pair(Word32(), Pair(Flag(), PortRefC())));
    PairLawful(Flag(), Pair(PortRefC(), Pair(Word32(), Pair(Flag(), PortRefC()))));
    PairLawful(Word64(), Pair(Flag(), Pair(PortRefC(), Pair(Word32(), Pair(Flag(), PortRefC())))));
    IsoLawful(SubjectRaw(), MakeSubject, SubjectParts);
    RefineLawful(Iso(SubjectRaw(), MakeSubject, SubjectParts), SubjectDated);
    PairLawful(Flag(), SideRefC());
    PairLawful(Word64(), Pair(Flag(), SideRefC()));
    IsoLawful(Pair(Word64(), Pair(Flag(), SideRefC())), MakePortValue, PortValueParts);
  }

  lemma PlacementValuesAccept(v: SubjectValue, w: PortValue)
    ensures SubjectC().sound(v) && (SubjectC().valid(v) <==> SubjectDated(v))
    ensures Accepts(PortValueC(), w)
  {
    hide Accepts, Total, Word64, Word32, Flag, PortRefC, SideRefC;
    ScalarsTotal();
    FlagLawful();
    ReferencesTotal();
    PairTotal(Flag(), PortRefC());
    PairTotal(Word32(), Pair(Flag(), PortRefC()));
    PairTotal(PortRefC(), Pair(Word32(), Pair(Flag(), PortRefC())));
    PairTotal(Flag(), Pair(PortRefC(), Pair(Word32(), Pair(Flag(), PortRefC()))));
    PairTotal(Word64(), Pair(Flag(), Pair(PortRefC(), Pair(Word32(), Pair(Flag(), PortRefC())))));
    IsoTotal(SubjectRaw(), MakeSubject, SubjectParts);
    TotalAccepts(Iso(SubjectRaw(), MakeSubject, SubjectParts), v);
    PairTotal(Flag(), SideRefC());
    PairTotal(Word64(), Pair(Flag(), SideRefC()));
    IsoTotal(Pair(Word64(), Pair(Flag(), SideRefC())), MakePortValue, PortValueParts);
    TotalAccepts(PortValueC(), w);
  }

  lemma LifetimeValuesLawful(l: Limits)
    ensures Lawful(LifecycleC(l)) && Lawful(ReincarnationC(l))
  {
    hide Lawful, Word64, ActionC, TextOf;
    ScalarsLawful();
    MoreKindsLawful();
    var text := TextOf(l.maxStringBytes);
    TextLawful(l.maxStringBytes);
    PairLawful(ActionC(), text);
    PairLawful(Word64(), Pair(ActionC(), text));
    IsoLawful(Pair(Word64(), Pair(ActionC(), text)), MakeLifecycle, LifecycleParts);
    PairLawful(text, text);
    PairLawful(Word64(), Pair(text, text));
    PairLawful(Word64(), Pair(Word64(), Pair(text, text)));
    IsoLawful(ReincarnationRaw(l), MakeReincarnation, ReincarnationParts);
    RefineLawful(Iso(ReincarnationRaw(l), MakeReincarnation, ReincarnationParts), ReincarnationStep);
  }

  lemma LifecycleAccepted(l: Limits, v: LifecycleValue)
    ensures Accepts(LifecycleC(l), v) <==> Fits(v.reason, l.maxStringBytes)
  {
    hide Accepts, Total, Word64, ActionC, TextOf;
    ScalarsTotal();
    MoreKindsLawful();
    var text, p := TextOf(l.maxStringBytes), LifecycleParts(v);
    TotalAccepts(Word64(), p.0);
    TotalAccepts(ActionC(), p.1.0);
    TextAccepts(l.maxStringBytes, v.reason);
    PairAccepts(ActionC(), text, p.1);
    PairAccepts(Word64(), Pair(ActionC(), text), p);
    IsoAccepts(Pair(Word64(), Pair(ActionC(), text)), MakeLifecycle, LifecycleParts, v);
  }

  lemma ReincarnationAccepted(l: Limits, v: ReincarnationValue)
    ensures Accepts(ReincarnationC(l), v) <==>
            ReincarnationStep(v) && Fits(v.serial, l.maxStringBytes) && Fits(v.reason, l.maxStringBytes)
  {
    hide Accepts, Total, Word64, TextOf;
    ScalarsTotal();
    var text, p := TextOf(l.maxStringBytes), ReincarnationParts(v);
    TotalAccepts(Word64(), p.0);
    TotalAccepts(Word64(), p.1.0);
    TextAccepts(l.maxStringBytes, v.serial);
    TextAccepts(l.maxStringBytes, v.reason);
    PairAccepts(text, text, p.1.1);
    PairAccepts(Word64(), Pair(text, text), p.1);
    PairAccepts(Word64(), Pair(Word64(), Pair(text, text)), p);
    IsoAccepts(ReincarnationRaw(l), MakeReincarnation, ReincarnationParts, v);
    RefineAccepts(Iso(ReincarnationRaw(l), MakeReincarnation, ReincarnationParts), ReincarnationStep, v);
  }

  // ---- Sources and sessions ----

  type SourceRecordTuple = (SourceDescriptor, (U64, (U64, bool)))
  function MakeSourceRecord(p: SourceRecordTuple): SourceRecord { SourceRecord(p.0, p.1.0, p.1.1.0, p.1.1.1) }
  function SourceRecordParts(r: SourceRecord): SourceRecordTuple
  {
    (r.descriptor, (r.descriptorIncarnation, (r.currentIncarnation, r.described)))
  }
  function SourceRecordC(l: Limits): Codec<SourceRecord>
  {
    Iso(Pair(SourceC(l), Pair(Word64(), Pair(Word64(), Flag()))), MakeSourceRecord, SourceRecordParts)
  }

  type SessionTuple = (I64, (U64, (bool, (bool, (U64, (U64, (U64, U64)))))))
  function MakeSession(p: SessionTuple): SessionRecord
  {
    SessionRecord(p.0, p.1.0, p.1.1.0, p.1.1.1.0, p.1.1.1.1.0, p.1.1.1.1.1.0, p.1.1.1.1.1.1.0, p.1.1.1.1.1.1.1)
  }
  function SessionParts(r: SessionRecord): SessionTuple
  {
    (r.openedAt, (r.highWater, (r.live, (r.closed, (r.accepted, (r.refused, (r.duplicates, r.missing)))))))
  }
  function SessionRaw(): Codec<SessionTuple>
  {
    Pair(Signed(), Pair(Word64(), Pair(Flag(), Pair(Flag(), Pair(Word64(), Pair(Word64(), Pair(Word64(), Word64())))))))
  }
  function SessionC(): Codec<SessionRecord> { Iso(SessionRaw(), MakeSession, SessionParts) }

  lemma SourceRecordLawful(l: Limits)
    ensures Lawful(SourceRecordC(l))
  {
    hide Lawful, Word64, Flag, SourceC;
    ScalarsLawful();
    FlagLawful();
    SourceLawful(l);
    PairLawful(Word64(), Flag());
    PairLawful(Word64(), Pair(Word64(), Flag()));
    PairLawful(SourceC(l), Pair(Word64(), Pair(Word64(), Flag())));
    IsoLawful(Pair(SourceC(l), Pair(Word64(), Pair(Word64(), Flag()))), MakeSourceRecord, SourceRecordParts);
  }

  lemma SourceRecordAccepts(l: Limits, r: SourceRecord)
    ensures Accepts(SourceRecordC(l), r) <==>
            r.descriptor.id != 0 && Fits(r.descriptor.name, l.maxStringBytes)
              && Fits(r.descriptor.domain, l.maxStringBytes)
  {
    hide Accepts, Total, Word64, Flag, SourceC;
    ScalarsTotal();
    FlagLawful();
    SourceAccepts(l, r.descriptor);
    var p := SourceRecordParts(r);
    PairTotal(Word64(), Flag());
    PairTotal(Word64(), Pair(Word64(), Flag()));
    TotalAccepts(Pair(Word64(), Pair(Word64(), Flag())), p.1);
    PairAccepts(SourceC(l), Pair(Word64(), Pair(Word64(), Flag())), p);
    IsoAccepts(Pair(SourceC(l), Pair(Word64(), Pair(Word64(), Flag()))), MakeSourceRecord, SourceRecordParts, r);
  }

  lemma SessionLawful()
    ensures Lawful(SessionC()) && Total(SessionC())
  {
    hide Lawful, Total, Word64, Flag, Signed;
    ScalarsLawful();
    ScalarsTotal();
    FlagLawful();
    SignedLawful();
    var a := Pair(Word64(), Word64());
    PairLawful(Word64(), Word64());
    PairTotal(Word64(), Word64());
    var b := Pair(Word64(), a);
    PairLawful(Word64(), a);
    PairTotal(Word64(), a);
    var c := Pair(Word64(), b);
    PairLawful(Word64(), b);
    PairTotal(Word64(), b);
    var d := Pair(Flag(), c);
    PairLawful(Flag(), c);
    PairTotal(Flag(), c);
    PairLawful(Flag(), d);
    PairTotal(Flag(), d);
    var e := Pair(Word64(), Pair(Flag(), d));
    PairLawful(Word64(), Pair(Flag(), d));
    PairTotal(Word64(), Pair(Flag(), d));
    PairLawful(Signed(), e);
    PairTotal(Signed(), e);
    IsoLawful(SessionRaw(), MakeSession, SessionParts);
    IsoTotal(SessionRaw(), MakeSession, SessionParts);
  }

  // ---- Tables ----

  function OwnedEntry<V(==)>(value: Codec<V>, l: Limits): Codec<(Owner, Folded<V>)>
  {
    Pair(OwnerC(), FoldedC(value, l))
  }

  function OwnedRow<P, V(==)>(primary: Codec<P>, value: Codec<V>, l: Limits): Codec<(P, seq<(Owner, Folded<V>)>)>
  {
    Pair(primary, ListOf(OwnedEntry(value, l), l.maxSources))
  }

  ghost function OwnedTable<P(!new), V(!new)>(primary: Codec<P>, value: Codec<V>, prank: P -> int, l: Limits,
                                              max: nat): Codec<Table<P, Owner, V>>
  {
    TableOf(OwnedRow(primary, value, l), prank, OwnerRank, max)
  }

  lemma OwnedPrints<P(!new), V(!new)>(primary: Codec<P>, value: Codec<V>, prank: P -> int, l: Limits, max: nat)
    requires Prints(primary) && Prints(value)
    ensures Prints(OwnedTable(primary, value, prank, l, max))
  {
    hide Prints, OwnerC, FoldedC, ListOf;
    ReferencesLawful();
    FoldedPrints(value, l);
    OwnerPrints();
    PairPrints(OwnerC(), FoldedC(value, l));
    ListPrints(OwnedEntry(value, l), l.maxSources);
    PairPrints(primary, ListOf(OwnedEntry(value, l), l.maxSources));
    TablePrints(OwnedRow(primary, value, l), prank, OwnerRank, max);
  }

  lemma OwnerPrints()
    ensures Prints(OwnerC()) && Prints(PortRefC()) && Prints(SideRefC()) && Prints(Identity())
  {
    ReferencesLawful();
    IdentityLawful();
  }

  /** The table's counts stay within what the reader allows. */
  predicate CountsFit<P, K, V>(t: Table<P, K, V>, max: nat, inner: nat)
  {
    |t| <= max && forall p :: p in t ==> |t[p]| <= inner
  }

  /** Every count can be written in 32 bits. */
  predicate Countable<P, K, V>(t: Table<P, K, V>)
  {
    |t| < TWO_32 && forall p :: p in t ==> |t[p]| < TWO_32 && forall k :: k in t[p] ==> |t[p][k].superseded| < TWO_32
  }

  /** Every record of the table is one the reader accepts. */
  ghost predicate RecordsFit<P(!new), V(!new)>(t: Table<P, Owner, V>, value: Codec<V>, l: Limits)
  {
    forall p, o :: p in t && o in t[p] ==> OwnerNamed(o) && RecordFits(t[p][o], l) && Accepts(value, t[p][o].value)
  }

  lemma OwnedRowAccepts<P(!new), V(!new)>(primary: Codec<P>, value: Codec<V>, l: Limits, p: P,
                                          group: map<Owner, Folded<V>>)
    requires Total(primary)
    requires forall o :: o in group ==> OwnerNamed(o) && RecordFits(group[o], l) && Accepts(value, group[o].value)
    ensures OwnedRow(primary, value, l).sound((p, Entries(group, OwnerRank))) <==>
              |group| < TWO_32 && forall o :: o in group ==> |group[o].superseded| < TWO_32
    ensures OwnedRow(primary, value, l).valid((p, Entries(group, OwnerRank))) <==> |group| <= l.maxSources
  {
    hide OwnerC, FoldedC, ListOf, Total, Entries, Pair, RecordFits;
    var entries := Entries(group, OwnerRank);
    EntriesMembers(group, OwnerRank);
    ReferencesTotal();
    TotalAccepts(primary, p);
    forall e | e in entries
      ensures OwnedEntry(value, l).valid(e) && (OwnedEntry(value, l).sound(e) <==> |e.1.superseded| < TWO_32)
    {
      FoldedAccepts(value, l, e.1);
      assert Accepts(OwnerC(), e.0);
      PairAccepts(OwnerC(), FoldedC(value, l), e);
    }
    ListMembers(OwnedEntry(value, l), l.maxSources, entries);
    PairAccepts(primary, ListOf(OwnedEntry(value, l), l.maxSources), (p, entries));
  }

  lemma OwnedAccepts<P(!new), V(!new)>(primary: Codec<P>, value: Codec<V>, prank: P -> int, l: Limits, max: nat,
                                       t: Table<P, Owner, V>)
    requires Total(primary) && RecordsFit(t, value, l)
    ensures OwnedTable(primary, value, prank, l, max).sound(t) <==> Countable(t)
    ensures OwnedTable(primary, value, prank, l, max).valid(t) <==> CountsFit(t, max, l.maxSources)
  {
    hide OwnedRow, Total, Entries, TableOf, RecordFits;
    TableAccepts(OwnedRow(primary, value, l), prank, OwnerRank, max, t);
    forall p | p in t
      ensures OwnedRow(primary, value, l).sound((p, Entries(t[p], OwnerRank))) <==>
                |t[p]| < TWO_32 && forall o :: o in t[p] ==> |t[p][o].superseded| < TWO_32
      ensures OwnedRow(primary, value, l).valid((p, Entries(t[p], OwnerRank))) <==> |t[p]| <= l.maxSources
    {
      OwnedRowAccepts(primary, value, l, p, t[p]);
    }
  }

  // ---- Port records: the key's port is the row's ----

  function MakeSlotKey(p: PortRef, t: (Owner, U32)): SlotKey { SlotKey(t.0, p, t.1) }
  function SlotKeyParts(k: SlotKey): (Owner, U32) { (k.owner, k.slot) }
  function SlotKeyC(p: PortRef): Codec<SlotKey>
  {
    Iso(Pair(OwnerC(), Word32()), (t: (Owner, U32)) => MakeSlotKey(p, t), (k: SlotKey) => SlotKeyParts(k))
  }

  /** Products of limits are taken in 32 bits. */
  function Times32(a: U32, b: U32): U32 { (a * b) % TWO_32 }

  function SlotEntry(p: PortRef, l: Limits): Codec<(SlotKey, Folded<PortValue>)>
  {
    Pair(SlotKeyC(p), FoldedC(PortValueC(), l))
  }
  function SlotList(p: PortRef, l: Limits): Codec<seq<(SlotKey, Folded<PortValue>)>>
  {
    ListOf(SlotEntry(p, l), Times32(l.maxSources, l.maxPortAttachments))
  }
  function PortRow(l: Limits): Codec<(PortRef, seq<(SlotKey, Folded<PortValue>)>)>
  {
    Depend(PortRefC(), (p: PortRef) => SlotList(p, l))
  }
  ghost function PortTable(l: Limits): Codec<Table<PortRef, SlotKey, PortValue>>
  {
    TableOf(PortRow(l), PortRank, SlotRank, Times32(l.maxEndpoints, l.maxPortsPerEndpoint))
  }

  lemma SlotListPrints(p: PortRef, l: Limits)
    ensures Prints(SlotList(p, l))
  {
    hide Prints, OwnerC, Word32, FoldedC, ListOf, PortValueC, Times32;
    OwnerPrints();
    ScalarsLawful();
    PlacementValuesLawful();
    FoldedPrints(PortValueC(), l);
    PairPrints(OwnerC(), Word32());
    IsoPrints(Pair(OwnerC(), Word32()), (t: (Owner, U32)) => MakeSlotKey(p, t), (k: SlotKey) => SlotKeyParts(k));
    PairPrints(SlotKeyC(p), FoldedC(PortValueC(), l));
    ListPrints(SlotEntry(p, l), Times32(l.maxSources, l.maxPortAttachments));
  }

  lemma PortTablePrints(l: Limits)
    ensures Prints(PortTable(l))
  {
    hide Prints, PortRefC, SlotList, Times32;
    OwnerPrints();
    var lists := (p: PortRef) => SlotList(p, l);
    forall p
      ensures Prints(lists(p))
    {
      SlotListPrints(p, l);
    }
    DependPrints(PortRefC(), lists);
    TablePrints(PortRow(l), PortRank, SlotRank, Times32(l.maxEndpoints, l.maxPortsPerEndpoint));
  }

  /** Every port record is one the reader accepts, filed under its own port. */
  ghost predicate SlotsFit(t: Table<PortRef, SlotKey, PortValue>, l: Limits)
  {
    forall p, key :: p in t && key in t[p] ==> SlotFits(p, key, t[p][key], l)
  }

  predicate SlotFits(p: PortRef, key: SlotKey, f: Folded<PortValue>, l: Limits)
  {
    key.port == p && OwnerNamed(key.owner) && RecordFits(f, l)
  }

  lemma SlotKeyAccepts(p: PortRef, key: SlotKey)
    requires key.port == p && OwnerNamed(key.owner)
    ensures SlotKeyC(p).sound(key) && SlotKeyC(p).valid(key)
  {
    hide OwnerC, Word32;
    ReferencesTotal();
    ScalarsTotal();
    TotalAccepts(Word32(), key.slot);
    assert Accepts(OwnerC(), key.owner);
    PairAccepts(OwnerC(), Word32(), SlotKeyParts(key));
    IsoAccepts(Pair(OwnerC(), Word32()), (t: (Owner, U32)) => MakeSlotKey(p, t), (k: SlotKey) => SlotKeyParts(k), key);
  }

  lemma PortRowAccepts(l: Limits, p: PortRef, group: map<SlotKey, Folded<PortValue>>)
    requires forall key :: key in group ==> key.port == p && OwnerNamed(key.owner) && RecordFits(group[key], l)
    ensures PortRow(l).sound((p, Entries(group, SlotRank))) <==>
              |group| < TWO_32 && forall key :: key in group ==> |group[key].superseded| < TWO_32
    ensures PortRow(l).valid((p, Entries(group, SlotRank))) <==> |group| <= Times32(l.maxSources, l.maxPortAttachments)
  {
    hide SlotKeyC, FoldedC, ListOf, Entries, Times32, RecordFits, PortRefC, PortValueC, OwnerNamed;
    var entries := Entries(group, SlotRank);
    EntriesMembers(group, SlotRank);
    ReferencesTotal();
    TotalAccepts(PortRefC(), p);
    forall e | e in entries
      ensures SlotEntry(p, l).valid(e) && (SlotEntry(p, l).sound(e) <==> |e.1.superseded| < TWO_32)
    {
      PlacementValuesAccept(SubjectValue(1, false, PortRef(0, 0), 0, false, PortRef(0, 0)), e.1.value);
      FoldedAccepts(PortValueC(), l, e.1);
      SlotKeyAccepts(p, e.0);
      PairAccepts(SlotKeyC(p), FoldedC(PortValueC(), l), e);
    }
    ListMembers(SlotEntry(p, l), Times32(l.maxSources, l.maxPortAttachments), entries);
  }

  lemma PortTableAccepts(l: Limits, t: Table<PortRef, SlotKey, PortValue>)
    requires SlotsFit(t, l)
    ensures PortTable(l).sound(t) <==> Countable(t)
    ensures PortTable(l).valid(t) <==>
            CountsFit(t, Times32(l.maxEndpoints, l.maxPortsPerEndpoint), Times32(l.maxSources, l.maxPortAttachments))
  {
    hide PortRow, Entries, TableOf, RecordFits, Times32, OwnerNamed;
    TableAccepts(PortRow(l), PortRank, SlotRank, Times32(l.maxEndpoints, l.maxPortsPerEndpoint), t);
    forall p | p in t
      ensures PortRow(l).sound((p, Entries(t[p], SlotRank))) <==>
                |t[p]| < TWO_32 && forall key :: key in t[p] ==> |t[p][key].superseded| < TWO_32
      ensures PortRow(l).valid((p, Entries(t[p], SlotRank))) <==> |t[p]| <= Times32(l.maxSources, l.maxPortAttachments)
    {
      PortRowAccepts(l, p, t[p]);
    }
  }

  // ---- Sources and sessions ----

  ghost function SourcesC(l: Limits): Codec<map<Id, SourceRecord>>
  {
    MapOf(Pair(Identity(), SourceRecordC(l)), IdRank, l.maxSources)
  }
  ghost function SessionsC(l: Limits): Codec<map<Owner, SessionRecord>>
  {
    MapOf(Pair(OwnerC(), SessionC()), OwnerRank, Times32(l.maxSources, 64))
  }

  lemma CataloguePrints(l: Limits)
    ensures Prints(SourcesC(l)) && Prints(SessionsC(l))
  {
    hide Prints, Identity, OwnerC, SourceRecordC, SessionC, Times32;
    OwnerPrints();
    SourceRecordLawful(l);
    SessionLawful();
    PairPrints(Identity(), SourceRecordC(l));
    PairPrints(OwnerC(), SessionC());
    MapPrints(Pair(Identity(), SourceRecordC(l)), IdRank, l.maxSources);
    MapPrints(Pair(OwnerC(), SessionC()), OwnerRank, Times32(l.maxSources, 64));
  }

  ghost predicate SourcesFit(sources: map<Id, SourceRecord>, l: Limits)
  {
    forall x :: x in sources ==>
      && sources[x].descriptor.id != 0 && Fits(sources[x].descriptor.name, l.maxStringBytes)
      && Fits(sources[x].descriptor.domain, l.maxStringBytes)
  }

  lemma SourcesAccept(l: Limits, sources: map<Id, SourceRecord>)
    requires SourcesFit(sources, l)
    ensures SourcesC(l).sound(sources) <==> |sources| < TWO_32
    ensures SourcesC(l).valid(sources) <==> |sources| <= l.maxSources
  {
    hide Identity, SourceRecordC, Pair;
    IdentityLawful();
    MapAccepts(Pair(Identity(), SourceRecordC(l)), IdRank, l.maxSources, sources);
    forall x | x in sources
      ensures Pair(Identity(), SourceRecordC(l)).sound((x, sources[x]))
              && Pair(Identity(), SourceRecordC(l)).valid((x, sources[x]))
    {
      TotalAccepts(Identity(), x);
      SourceRecordAccepts(l, sources[x]);
      PairAccepts(Identity(), SourceRecordC(l), (x, sources[x]));
    }
  }

  lemma SessionsAccept(l: Limits, sessions: map<Owner, SessionRecord>)
    requires forall o :: o in sessions ==> OwnerNamed(o)
    ensures SessionsC(l).sound(sessions) <==> |sessions| < TWO_32
    ensures SessionsC(l).valid(sessions) <==> |sessions| <= Times32(l.maxSources, 64)
  {
    hide OwnerC, SessionC, Pair, Times32;
    ReferencesTotal();
    SessionLawful();
    MapAccepts(Pair(OwnerC(), SessionC()), OwnerRank, Times32(l.maxSources, 64), sessions);
    forall o | o in sessions
      ensures Pair(OwnerC(), SessionC()).sound((o, sessions[o])) && Pair(OwnerC(), SessionC()).valid((o, sessions[o]))
    {
      TotalAccepts(SessionC(), sessions[o]);
      assert Accepts(OwnerC(), o);
      PairAccepts(OwnerC(), SessionC(), (o, sessions[o]));
    }
  }

  // ---- The image ----

  const STORE_FORMAT_VERSION: U32 := 1

  type Head = (U32, (Id, (I64, (map<Id, SourceRecord>, map<Owner, SessionRecord>))))
  type Placements = (Table<Id, Owner, ObjectDescriptor>,
                     (Table<Id, Owner, EndpointDescriptor>,
                       (Table<SideRef, Owner, SubjectValue>, Table<PortRef, SlotKey, PortValue>)))
  type Lifetimes = (Table<Id, Owner, LifecycleValue>,
                    (Table<Id, Owner, ReincarnationValue>,
                      (Table<Id, Owner, NominalCapability>, Table<PortRef, Owner, PortCapability>)))

  function MakeState(p: (Head, (Placements, Lifetimes))): RegistryState
  {
    RegistryState(p.0.1.0, p.0.1.1.0, p.0.1.1.1.0, p.0.1.1.1.1, p.1.0.0, p.1.0.1.0, p.1.0.1.1.0, p.1.0.1.1.1,
                  p.1.1.0, p.1.1.1.0, p.1.1.1.1.0, p.1.1.1.1.1)
  }
  function StateParts(s: RegistryState): (Head, (Placements, Lifetimes))
  {
    ((STORE_FORMAT_VERSION, (s.id, (s.openedAt, (s.sources, s.sessions)))),
     ((s.objects, (s.endpoints, (s.subjects, s.ports))),
      (s.lifecycles, (s.reincarnations, (s.objectCapabilities, s.portCapabilities)))))
  }

  predicate Current(v: U32) { v == STORE_FORMAT_VERSION }

  ghost function HeadC(l: Limits): Codec<Head>
  {
    Pair(Refine(Word32(), Current), Pair(Identity(), Pair(Signed(), Pair(SourcesC(l), SessionsC(l)))))
  }
  ghost function ObjectsC(l: Limits): Codec<Table<Id, Owner, ObjectDescriptor>>
  {
    OwnedTable(Identity(), ObjectC(l), IdRank, l, l.maxObjects)
  }
  ghost function EndpointsC(l: Limits): Codec<Table<Id, Owner, EndpointDescriptor>>
  {
    OwnedTable(Identity(), EndpointC(l), IdRank, l, l.maxEndpoints)
  }
  ghost function SubjectsC(l: Limits): Codec<Table<SideRef, Owner, SubjectValue>>
  {
    OwnedTable(SideRefC(), SubjectC(), SideRank, l, Times32(l.maxObjects, l.maxSidesPerObject))
  }
  ghost function LifecyclesC(l: Limits): Codec<Table<Id, Owner, LifecycleValue>>
  {
    OwnedTable(Identity(), LifecycleC(l), IdRank, l, l.maxObjects)
  }
  ghost function ReincarnationsC(l: Limits): Codec<Table<Id, Owner, ReincarnationValue>>
  {
    OwnedTable(Identity(), ReincarnationC(l), IdRank, l, l.maxObjects)
  }
  ghost function NominalsC(l: Limits): Codec<Table<Id, Owner, NominalCapability>>
  {
    OwnedTable(Identity(), NominalC(l), IdRank, l, l.maxObjects)
  }
  ghost function PortCapabilitiesC(l: Limits): Codec<Table<PortRef, Owner, PortCapability>>
  {
    OwnedTable(PortRefC(), PortCapabilityC(l), PortRank, l, Times32(l.maxEndpoints, l.maxPortsPerEndpoint))
  }
  ghost function PlacementsC(l: Limits): Codec<Placements>
  {
    Pair(ObjectsC(l), Pair(EndpointsC(l), Pair(SubjectsC(l), PortTable(l))))
  }
  ghost function LifetimesC(l: Limits): Codec<Lifetimes>
  {
    Pair(LifecyclesC(l), Pair(ReincarnationsC(l), Pair(NominalsC(l), PortCapabilitiesC(l))))
  }
  ghost function StateRaw(l: Limits): Codec<(Head, (Placements, Lifetimes))>
  {
    Pair(HeadC(l), Pair(PlacementsC(l), LifetimesC(l)))
  }

  /** encode_state() and decode_state() */
  ghost function StateC(l: Limits): Codec<RegistryState>
  {
    Iso(StateRaw(l), (p: (Head, (Placements, Lifetimes))) => MakeState(p), (s: RegistryState) => StateParts(s))
  }

  lemma HeadPrints(l: Limits)
    ensures Prints(HeadC(l))
  {
    hide Prints, Word32, Identity, Signed, SourcesC, SessionsC, Refine;
    OwnerPrints();
    VersionPrints();
    CataloguePrints(l);
    PairPrints(SourcesC(l), SessionsC(l));
    PairPrints(Signed(), Pair(SourcesC(l), SessionsC(l)));
    PairPrints(Identity(), Pair(Signed(), Pair(SourcesC(l), SessionsC(l))));
    PairPrints(Refine(Word32(), Current), Pair(Identity(), Pair(Signed(), Pair(SourcesC(l), SessionsC(l)))));
  }

  lemma VersionPrints()
    ensures Prints(Refine(Word32(), Current)) && Prints(Signed())
  {
    ScalarsLawful();
    SignedLawful();
    RefineLawful(Word32(), Current);
  }

  lemma PlacementsPrints(l: Limits)
    ensures Prints(PlacementsC(l))
  {
    hide Prints, Identity, SideRefC, ObjectC, EndpointC, SubjectC, OwnedTable, PortTable, Times32;
    OwnerPrints();
    ObjectLawful(l);
    EndpointLawful(l);
    PlacementValuesLawful();
    OwnedPrints(Identity(), ObjectC(l), IdRank, l, l.maxObjects);
    OwnedPrints(Identity(), EndpointC(l), IdRank, l, l.maxEndpoints);
    OwnedPrints(SideRefC(), SubjectC(), SideRank, l, Times32(l.maxObjects, l.maxSidesPerObject));
    PortTablePrints(l);
    PairPrints(SubjectsC(l), PortTable(l));
    PairPrints(EndpointsC(l), Pair(SubjectsC(l), PortTable(l)));
    PairPrints(ObjectsC(l), Pair(EndpointsC(l), Pair(SubjectsC(l), PortTable(l))));
  }

  lemma LifetimesPrints(l: Limits)
    ensures Prints(LifetimesC(l))
  {
    hide Prints, Identity, PortRefC, LifecycleC, ReincarnationC, NominalC, PortCapabilityC, OwnedTable, Times32;
    OwnerPrints();
    LifetimeValuesLawful(l);
    NominalLawful(l);
    PortCapabilityLawful(l);
    OwnedPrints(Identity(), LifecycleC(l), IdRank, l, l.maxObjects);
    OwnedPrints(Identity(), ReincarnationC(l), IdRank, l, l.maxObjects);
    OwnedPrints(Identity(), NominalC(l), IdRank, l, l.maxObjects);
    OwnedPrints(PortRefC(), PortCapabilityC(l), PortRank, l, Times32(l.maxEndpoints, l.maxPortsPerEndpoint));
    PairPrints(NominalsC(l), PortCapabilitiesC(l));
    PairPrints(ReincarnationsC(l), Pair(NominalsC(l), PortCapabilitiesC(l)));
    PairPrints(LifecyclesC(l), Pair(ReincarnationsC(l), Pair(NominalsC(l), PortCapabilitiesC(l))));
  }

  lemma StatePrints(l: Limits)
    ensures Prints(StateC(l))
  {
    hide Prints, HeadC, PlacementsC, LifetimesC;
    HeadPrints(l);
    PlacementsPrints(l);
    LifetimesPrints(l);
    PairPrints(PlacementsC(l), LifetimesC(l));
    PairPrints(HeadC(l), Pair(PlacementsC(l), LifetimesC(l)));
    IsoPrints(StateRaw(l), (p: (Head, (Placements, Lifetimes))) => MakeState(p), (s: RegistryState) => StateParts(s));
  }

  // ---- Which states the image carries ----

  /** Every single record of the state is one the reader accepts. */
  ghost predicate ContentsFit(s: RegistryState, l: Limits)
  {
    && SourcesFit(s.sources, l) && (forall o :: o in s.sessions ==> OwnerNamed(o))
    && RecordsFit(s.objects, ObjectC(l), l) && RecordsFit(s.endpoints, EndpointC(l), l)
    && RecordsFit(s.subjects, SubjectC(), l) && SlotsFit(s.ports, l)
    && RecordsFit(s.lifecycles, LifecycleC(l), l) && RecordsFit(s.reincarnations, ReincarnationC(l), l)
    && RecordsFit(s.objectCapabilities, NominalC(l), l) && RecordsFit(s.portCapabilities, PortCapabilityC(l), l)
  }

  predicate PlacementsCountable(s: RegistryState)
  {
    Countable(s.objects) && Countable(s.endpoints) && Countable(s.subjects) && Countable(s.ports)
  }

  predicate LifetimesCountable(s: RegistryState)
  {
    Countable(s.lifecycles) && Countable(s.reincarnations) && Countable(s.objectCapabilities)
      && Countable(s.portCapabilities)
  }

  /** Every count of the state can be written in 32 bits. */
  predicate CountableState(s: RegistryState)
  {
    |s.sources| < TWO_32 && |s.sessions| < TWO_32 && PlacementsCountable(s) && LifetimesCountable(s)
  }

  predicate PlacementsFit(s: RegistryState, l: Limits)
  {
    && CountsFit(s.objects, l.maxObjects, l.maxSources)
    && CountsFit(s.endpoints, l.maxEndpoints, l.maxSources)
    && CountsFit(s.subjects, Times32(l.maxObjects, l.maxSidesPerObject), l.maxSources)
    && CountsFit(s.ports, Times32(l.maxEndpoints, l.maxPortsPerEndpoint), Times32(l.maxSources, l.maxPortAttachments))
  }

  predicate LifetimesFit(s: RegistryState, l: Limits)
  {
    && CountsFit(s.lifecycles, l.maxObjects, l.maxSources)
    && CountsFit(s.reincarnations, l.maxObjects, l.maxSources)
    && CountsFit(s.objectCapabilities, l.maxObjects, l.maxSources)
    && CountsFit(s.portCapabilities, Times32(l.maxEndpoints, l.maxPortsPerEndpoint), l.maxSources)
  }

  /** Every count of the state is within the bound its reader puts on it. */
  predicate SizesFit(s: RegistryState, l: Limits)
  {
    |s.sources| <= l.maxSources && |s.sessions| <= Times32(l.maxSources, 64) && PlacementsFit(s, l)
      && LifetimesFit(s, l)
  }

  lemma HeadAccepts(s: RegistryState, l: Limits)
    requires ContentsFit(s, l)
    ensures HeadC(l).sound(StateParts(s).0) <==> |s.sources| < TWO_32 && |s.sessions| < TWO_32
    ensures HeadC(l).valid(StateParts(s).0) <==>
            |s.sources| <= l.maxSources && |s.sessions| <= Times32(l.maxSources, 64)
  {
    hide Word32, Identity, Signed, SourcesC, SessionsC, Refine, RecordsFit, SlotsFit, Pair, Total, Times32;
    ScalarsTotal();
    IdentityLawful();
    SignedLawful();
    var p := StateParts(s).0;
    TotalAccepts(Word32(), p.0);
    RefineAccepts(Word32(), Current, p.0);
    TotalAccepts(Identity(), p.1.0);
    TotalAccepts(Signed(), p.1.1.0);
    SourcesAccept(l, s.sources);
    SessionsAccept(l, s.sessions);
    PairAccepts(SourcesC(l), SessionsC(l), p.1.1.1);
    PairAccepts(Signed(), Pair(SourcesC(l), SessionsC(l)), p.1.1);
    PairAccepts(Identity(), Pair(Signed(), Pair(SourcesC(l), SessionsC(l))), p.1);
    PairAccepts(Refine(Word32(), Current), Pair(Identity(), Pair(Signed(), Pair(SourcesC(l), SessionsC(l)))), p);
  }

  lemma PlacementsAccept(s: RegistryState, l: Limits)
    requires ContentsFit(s, l)
    ensures PlacementsC(l).sound(StateParts(s).1.0) <==> PlacementsCountable(s)
    ensures PlacementsC(l).valid(StateParts(s).1.0) <==> PlacementsFit(s, l)
  {
    hide Identity, SideRefC, OwnedTable, PortTable, RecordsFit, SlotsFit, Pair, Total, Times32, CountsFit, Countable,
         SourcesFit;
    hide ObjectC, EndpointC, SubjectC;
    IdentityLawful();
    ReferencesTotal();
    var p := StateParts(s).1.0;
    OwnedAccepts(Identity(), ObjectC(l), IdRank, l, l.maxObjects, s.objects);
    OwnedAccepts(Identity(), EndpointC(l), IdRank, l, l.maxEndpoints, s.endpoints);
    OwnedAccepts(SideRefC(), SubjectC(), SideRank, l, Times32(l.maxObjects, l.maxSidesPerObject), s.subjects);
    PortTableAccepts(l, s.ports);
    PairAccepts(SubjectsC(l), PortTable(l), p.1.1);
    PairAccepts(EndpointsC(l), Pair(SubjectsC(l), PortTable(l)), p.1);
    PairAccepts(ObjectsC(l), Pair(EndpointsC(l), Pair(SubjectsC(l), PortTable(l))), p);
  }

  lemma LifetimesAccept(s: RegistryState, l: Limits)
    requires ContentsFit(s, l)
    ensures LifetimesC(l).sound(StateParts(s).1.1) <==> LifetimesCountable(s)
    ensures LifetimesC(l).valid(StateParts(s).1.1) <==> LifetimesFit(s, l)
  {
    hide Identity, PortRefC, OwnedTable, RecordsFit, SlotsFit, Pair, Total, Times32, CountsFit, Countable, SourcesFit;
    hide LifecycleC, ReincarnationC, NominalC, PortCapabilityC;
    IdentityLawful();
    ReferencesTotal();
    var p := StateParts(s).1.1;
    OwnedAccepts(Identity(), LifecycleC(l), IdRank, l, l.maxObjects, s.lifecycles);
    OwnedAccepts(Identity(), ReincarnationC(l), IdRank, l, l.maxObjects, s.reincarnations);
    OwnedAccepts(Identity(), NominalC(l), IdRank, l, l.maxObjects, s.objectCapabilities);
    OwnedAccepts(PortRefC(), PortCapabilityC(l), PortRank, l, Times32(l.maxEndpoints, l.maxPortsPerEndpoint),
      s.portCapabilities);
    PairAccepts(NominalsC(l), PortCapabilitiesC(l), p.1.1);
    PairAccepts(ReincarnationsC(l), Pair(NominalsC(l), PortCapabilitiesC(l)), p.1);
    PairAccepts(LifecyclesC(l), Pair(ReincarnationsC(l), Pair(NominalsC(l), PortCapabilitiesC(l))), p);
  }

  lemma StateAccepts(s: RegistryState, l: Limits)
    requires ContentsFit(s, l)
    ensures StateC(l).sound(s) <==> CountableState(s)
    ensures StateC(l).valid(s) <==> SizesFit(s, l)
  {
    hide HeadC, PlacementsC, LifetimesC, ContentsFit, Pair, Times32, CountsFit, Countable;
    HeadAccepts(s, l);
    PlacementsAccept(s, l);
    LifetimesAccept(s, l);
    var p := StateParts(s);
    PairAccepts(PlacementsC(l), LifetimesC(l), p.1);
    PairAccepts(HeadC(l), Pair(PlacementsC(l), LifetimesC(l)), p);
    IsoAccepts(StateRaw(l), (q: (Head, (Placements, Lifetimes))) => MakeState(q), (t: RegistryState) => StateParts(t),
      s);
  }

  /**
    * The image of a state whose records are sound is read back, every byte consumed, exactly when
    * every count is within its reader's bound; otherwise it is refused.
    */
  lemma ImageRoundTrip(s: RegistryState, l: Limits)
    requires ContentsFit(s, l) && CountableState(s)
    ensures Whole(StateC(l), StateC(l).write(s)) == if SizesFit(s, l) then Some(s) else None
  {
    hide ContentsFit, CountableState, SizesFit, StateC;
    StateAccepts(s, l);
    StatePrints(l);
    assert StateC(l).write(s) + [] == StateC(l).write(s);
  }
}
