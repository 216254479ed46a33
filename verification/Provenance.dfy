// The provenance image: the winning claims in the order of their keys, as bytes.  It is the same
// for the same evidence, and different for different winning claims.

module Provenance {
  import opened Words
  import opened LittleEndian
  import opened Evidence
  import opened Ordering
  import opened State
  import opened Codec
  import opened Wire
  import opened Records
  import opened MapCodec
  import opened StateImage
  import opened Congruence
  import opened Snapshot
  import Confluence
  import Sessions

  // ---- What is written of a record ----

  /** image_attestation(): neither the time of receipt nor the lifetime flag is in it. */
  datatype Stamp = Stamp(
    owner: Owner, generation: U64, evidence: Id, observedAt: I64, provenance: ProvenanceClass, authority: Authority)

  datatype Winner<V> = Winner(stamp: Stamp, value: V)

  type Winners<P, K, V> = map<P, map<K, Winner<V>>>

  function StampOf(a: Attestation): Stamp
  {
    Stamp(a.owner, a.generation, a.evidence, a.observedAt, a.provenance, a.authority)
  }

  function WinningGroup<K, V>(group: map<K, Folded<V>>): map<K, Winner<V>>
  {
    map k | k in group :: Winner(StampOf(group[k].meta), group[k].value)
  }

  /** What every key of the table holds now. */
  function Winning<P, K, V>(t: Table<P, K, V>): Winners<P, K, V> { map p | p in t :: WinningGroup(t[p]) }

  type StampTuple = (Owner, (U64, (Id, (I64, (ProvenanceClass, Authority)))))
  function MakeStamp(p: StampTuple): Stamp
  {
    Stamp(p.0, p.1.0, p.1.1.0, p.1.1.1.0, p.1.1.1.1.0, p.1.1.1.1.1)
  }
  function StampParts(a: Stamp): StampTuple
  {
    (a.owner, (a.generation, (a.evidence, (a.observedAt, (a.provenance, a.authority)))))
  }
  function StampRest(): Codec<(U64, (Id, (I64, (ProvenanceClass, Authority))))>
  {
    Pair(Word64(), Pair(Identity(), Pair(Signed(), Pair(ProvenanceC(), AuthorityC()))))
  }
  function StampC(): Codec<Stamp> { Iso(Pair(OwnerC(), StampRest()), MakeStamp, StampParts) }

  /** Counts are written in 32 bits; nothing else bounds them. */
  const ANY_COUNT: nat := TWO_32 - 1

  function MakeEntry<V>(p: (Stamp, V)): (Owner, Winner<V>) { (p.0.owner, Winner(p.0, p.1)) }
  function EntryParts<V>(e: (Owner, Winner<V>)): (Stamp, V) { (e.1.stamp, e.1.value) }

  /** The owner of a record is written once, in its stamp. */
  function WinnerEntry<V(==)>(value: Codec<V>): Codec<(Owner, Winner<V>)>
  {
    Iso(Pair(StampC(), value), (p: (Stamp, V)) => MakeEntry(p), (e: (Owner, Winner<V>)) => EntryParts(e))
  }

  function WinnerRow<P, V(==)>(primary: Codec<P>, value: Codec<V>): Codec<(P, seq<(Owner, Winner<V>)>)>
  {
    Pair(primary, ListOf(WinnerEntry(value), ANY_COUNT))
  }

  /** image_group(): every group under its primary key, in order. */
  ghost function GroupsC<P(!new), V(!new)>(primary: Codec<P>, value: Codec<V>,
                                           prank: P -> int): Codec<Winners<P, Owner, V>>
  {
    TableOf(WinnerRow(primary, value), prank, OwnerRank, ANY_COUNT)
  }

  type SlotTuple = (Stamp, (SlotKey, PortValue))
  function MakeSlotEntry(p: SlotTuple): (SlotKey, Winner<PortValue>) { (p.1.0, Winner(p.0, p.1.1)) }
  function SlotEntryParts(e: (SlotKey, Winner<PortValue>)): SlotTuple { (e.1.stamp, (e.0, e.1.value)) }

  /** A port record names its owner and slot after its stamp. */
  function SlotWinner(p: PortRef): Codec<(SlotKey, Winner<PortValue>)>
  {
    Iso(Pair(StampC(), Pair(SlotKeyC(p), PortValueC())), MakeSlotEntry, SlotEntryParts)
  }
  function SlotWinners(p: PortRef): Codec<seq<(SlotKey, Winner<PortValue>)>> { ListOf(SlotWinner(p), ANY_COUNT) }
  function SlotRow(): Codec<(PortRef, seq<(SlotKey, Winner<PortValue>)>)>
  {
    Depend(PortRefC(), (p: PortRef) => SlotWinners(p))
  }
  ghost function SlotsC(): Codec<Winners<PortRef, SlotKey, PortValue>>
  {
    TableOf(SlotRow(), PortRank, SlotRank, ANY_COUNT)
  }

  /** Everything the image is made of. */
  datatype Told = Told(
    objects: Winners<Id, Owner, ObjectDescriptor>, endpoints: Winners<Id, Owner, EndpointDescriptor>,
    subjects: Winners<SideRef, Owner, SubjectValue>, ports: Winners<PortRef, SlotKey, PortValue>,
    lifecycles: Winners<Id, Owner, LifecycleValue>, reincarnations: Winners<Id, Owner, ReincarnationValue>,
    nominals: Winners<Id, Owner, NominalCapability>, capabilities: Winners<PortRef, Owner, PortCapability>)

  function ToldBy(s: RegistryState): Told
  {
    Told(Winning(s.objects), Winning(s.endpoints), Winning(s.subjects), Winning(s.ports), Winning(s.lifecycles),
         Winning(s.reincarnations), Winning(s.objectCapabilities), Winning(s.portCapabilities))
  }

  ghost function PlacesImage(w: Told, l: Limits, rest: Bytes): Bytes
  {
    GroupsC(Identity(), ObjectC(l), IdRank).write(w.objects) +
    (GroupsC(Identity(), EndpointC(l), IdRank).write(w.endpoints) +
     (GroupsC(SideRefC(), SubjectC(), SideRank).write(w.subjects) + (SlotsC().write(w.ports) + rest)))
  }

  ghost function LivesImage(w: Told, l: Limits): Bytes
  {
    GroupsC(Identity(), LifecycleC(l), IdRank).write(w.lifecycles) +
    (GroupsC(Identity(), ReincarnationC(l), IdRank).write(w.reincarnations) +
     (GroupsC(Identity(), NominalC(l), IdRank).write(w.nominals) +
      (GroupsC(PortRefC(), PortCapabilityC(l), PortRank).write(w.capabilities) + [])))
  }

  /** encode_provenance_image() */
  ghost function ProvenanceImage(s: RegistryState, l: Limits): Bytes
  {
    LE(STORE_FORMAT_VERSION, 4) + PlacesImage(ToldBy(s), l, LivesImage(ToldBy(s), l))
  }

  // ---- The same evidence has the same image ----

  lemma WinningAlike<P, K, V>(a: Table<P, K, V>, b: Table<P, K, V>)
    requires CanonTable(a) == CanonTable(b)
    ensures Winning(a) == Winning(b)
  {
    assert a.Keys == CanonTable(a).Keys == CanonTable(b).Keys == b.Keys;
    forall p | p in a
      ensures WinningGroup(a[p]) == WinningGroup(b[p])
    {
      assert CanonGroup(a[p]) == CanonTable(a)[p] == CanonTable(b)[p] == CanonGroup(b[p]);
      GroupAlike(a[p], b[p]);
    }
  }

  lemma GroupAlike<K, V>(a: map<K, Folded<V>>, b: map<K, Folded<V>>)
    requires CanonGroup(a) == CanonGroup(b)
    ensures WinningGroup(a) == WinningGroup(b)
  {
    assert a.Keys == CanonGroup(a).Keys == CanonGroup(b).Keys == b.Keys;
    forall k | k in a
      ensures StampOf(a[k].meta) == StampOf(b[k].meta) && a[k].value == b[k].value
    {
      assert CanonFolded(a[k]) == CanonGroup(a)[k] == CanonGroup(b)[k] == CanonFolded(b[k]);
      StampAlike(a[k].meta, b[k].meta);
    }
  }

  lemma StampAlike(a: Attestation, b: Attestation)
    requires EraseMeta(Timeless, a) == EraseMeta(Timeless, b)
    ensures StampOf(a) == StampOf(b)
  {
    assert StampOf(a) == StampOf(EraseMeta(Timeless, a)) && StampOf(b) == StampOf(EraseMeta(Timeless, b));
  }

  /** The same evidence has the same provenance image, whenever and in whatever order it came. */
  lemma ProvenanceOfEvidence(s: RegistryState, t: RegistryState, l: Limits)
    requires SameEvidence(s, t)
    ensures ToldBy(t) == ToldBy(s) && ProvenanceImage(t, l) == ProvenanceImage(s, l)
  {
    hide Winning, CanonTable, PlacesImage, LivesImage, LE;
    WinningAlike(s.objects, t.objects);
    WinningAlike(s.endpoints, t.endpoints);
    WinningAlike(s.subjects, t.subjects);
    WinningAlike(s.ports, t.ports);
    WinningAlike(s.lifecycles, t.lifecycles);
    WinningAlike(s.reincarnations, t.reincarnations);
    WinningAlike(s.objectCapabilities, t.objectCapabilities);
    WinningAlike(s.portCapabilities, t.portCapabilities);
  }

  /** Two welcome deliveries of the same well-behaved records have the same provenance image. */
  lemma ConfluentProvenance(s: RegistryState, t: RegistryState, l: Limits, h: nat, p: seq<Confluence.Delivery>,
                            q: seq<Confluence.Delivery>)
    requires Confluence.AlikeBlank(s, t) && Confluence.AllWelcome(s, l, h, p) && Confluence.AllWelcome(t, l, h, q)
    requires Confluence.Records(p) == Confluence.Records(q) && Confluence.WellBehaved(Confluence.Records(p))
    ensures ProvenanceImage(Confluence.Deliver(s, l, h, p), l) == ProvenanceImage(Confluence.Deliver(t, l, h, q), l)
  {
    hide Confluence.AlikeBlank, Confluence.AllWelcome, Confluence.Deliver, Confluence.WellBehaved;
    hide SameEvidence, ProvenanceImage, BuildSnapshot;
    Confluence.Confluence(s, t, l, h, p, q);
    ProvenanceOfEvidence(Confluence.Deliver(s, l, h, p), Confluence.Deliver(t, l, h, q), l);
  }

  /** The registry of that identity, after the given sessions were opened and the records delivered. */
  ghost function Registry(id: Id, openedAt: I64, l: Limits, h: nat, evs: seq<Sessions.Event>,
                          q: seq<Confluence.Delivery>): RegistryState
  {
    Confluence.Deliver(Sessions.Run(EmptyState(id, openedAt), l, h, evs), l, h, q)
  }

  /**
    * Two new registries, whatever their identities, that open the same sessions and are then sent the
    * same well-behaved records, each in its own order and with its own repeats, have the same snapshot
    * and the same provenance image.
    */
  lemma RegistriesAgree(id: Id, openedAt: I64, id': Id, openedAt': I64, l: Limits, h: nat, evs: seq<Sessions.Event>,
                        p: seq<Confluence.Delivery>, q: seq<Confluence.Delivery>)
    requires forall ev :: ev in evs ==> ev.Opening?
    requires Confluence.AllWelcome(Sessions.Run(EmptyState(id, openedAt), l, h, evs), l, h, p)
    requires Confluence.AllWelcome(Sessions.Run(EmptyState(id', openedAt'), l, h, evs), l, h, q)
    requires Confluence.Records(p) == Confluence.Records(q) && Confluence.WellBehaved(Confluence.Records(p))
    ensures var a, b := Registry(id, openedAt, l, h, evs, p), Registry(id', openedAt', l, h, evs, q);
            BuildSnapshot(b, l) == BuildSnapshot(a, l) && ProvenanceImage(b, l) == ProvenanceImage(a, l)
  {
    hide Confluence.AllWelcome, Confluence.Deliver, Confluence.WellBehaved;
    hide SameEvidence, ProvenanceImage, BuildSnapshot, Sessions.Run;
    var s, t := Sessions.Run(EmptyState(id, openedAt), l, h, evs), Sessions.Run(EmptyState(id', openedAt'), l, h, evs);
    Confluence.OpeningsAlike(EmptyState(id, openedAt), EmptyState(id', openedAt'), l, h, evs);
    Confluence.Confluence(s, t, l, h, p, q);
    ConfluentProvenance(s, t, l, h, p, q);
  }
}
