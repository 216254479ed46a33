// The authoritative graph, derived from the folded records: authority dominance, source
// fencing, object incarnations, double booking and conflict reporting.

module Derive {
  import opened Words
  import opened Evidence
  import opened Ordering
  import opened State
  import opened Lifecycle

  datatype Policy = IncludeAll | LiveOnly
  datatype Validation = Unvalidated | PartiallyValidated | Validated
  datatype PortState = Unknown | Empty | Attached | Conflicting
  datatype Reason =
    | TooManyAttachments | EmptyAndOccupied | ObjectSideDoubleBooked | LifecycleConflict
    | CapabilityConflict | IncompatibleConnector | IncompatibleMedia

  predicate Participates(meta: Attestation, policy: Policy) { policy.IncludeAll? || meta.inLifetime }

  function CombineValidation(any: bool, all: bool): Validation
  {
    if !any then Unvalidated else if all then Validated else PartiallyValidated
  }

  /** claim_order: by source, incarnation, generation, evidence. */
  function ClaimRank(a: Attestation): int
  {
    (OwnerRank(a.owner) * TWO_64 + a.generation) * TWO_128 + a.evidence
  }

  ghost function BestOf(authorities: set<Authority>): Authority
    requires authorities != {}
  {
    Greatest(authorities, AuthorityRank)
  }

  predicate Below(a: Authority, b: Authority) { AuthorityRank(a) < AuthorityRank(b) }

  const NO_AUTHORITY: Authority := Authority(Speculative, 0)

  // ---- One object side ----

  /** Owners whose record on the side is live: unfenced, admitted, and against the current incarnation. */
  ghost function LiveSides(s: RegistryState, side: SideRef, policy: Policy): set<Owner>
  {
    var group := Group(s.subjects, side);
    set o | o in group && !Fenced(s, o) && Participates(group[o].meta, policy)
            && group[o].value.objectIncarnation == IncarnationOf(s, side.objectId)
  }

  ghost function SideOwners(s: RegistryState, side: SideRef, policy: Policy, attached: bool): (r: set<Owner>)
    ensures forall o :: o in r ==> Has(s.subjects, side, o)
  {
    set o | o in LiveSides(s, side, policy) && s.subjects[side][o].value.attached == attached
  }

  ghost function SideAuthorities(s: RegistryState, side: SideRef, policy: Policy, attached: bool): set<Authority>
  {
    set o | o in SideOwners(s, side, policy, attached) :: s.subjects[side][o].meta.authority
  }

  /** The attached claims outrank every detached one. */
  ghost predicate AttachedWins(s: RegistryState, side: SideRef, policy: Policy)
  {
    var up, down := SideAuthorities(s, side, policy, true), SideAuthorities(s, side, policy, false);
    up != {} && (down == {} || Below(BestOf(down), BestOf(up)))
  }

  ghost predicate DetachedWins(s: RegistryState, side: SideRef, policy: Policy)
  {
    var up, down := SideAuthorities(s, side, policy, true), SideAuthorities(s, side, policy, false);
    down != {} && (up == {} || Below(BestOf(up), BestOf(down)))
  }

  /** Owners of the attached claims at the winning authority. */
  ghost function TopSides(s: RegistryState, side: SideRef, policy: Policy): set<Owner>
    requires SideAuthorities(s, side, policy, true) != {}
  {
    var best := BestOf(SideAuthorities(s, side, policy, true));
    set o | o in SideOwners(s, side, policy, true) && s.subjects[side][o].meta.authority == best
  }

  ghost function TopPorts(s: RegistryState, side: SideRef, policy: Policy): set<PortRef>
    requires SideAuthorities(s, side, policy, true) != {}
  {
    set o | o in TopSides(s, side, policy) :: s.subjects[side][o].value.port
  }

  ghost function SideMetas(s: RegistryState, side: SideRef, owners: seq<Owner>): (r: seq<Attestation>)
    requires forall i :: 0 <= i < |owners| ==> owners[i] in Group(s.subjects, side)
    ensures |r| == |owners|
  {
    seq(|owners|, i requires 0 <= i < |owners| => Group(s.subjects, side)[owners[i]].meta)
  }

  ghost function SideSlots(s: RegistryState, side: SideRef, owners: seq<Owner>): (r: seq<U32>)
    requires forall i :: 0 <= i < |owners| ==> owners[i] in Group(s.subjects, side)
    ensures |r| == |owners|
  {
    seq(|owners|, i requires 0 <= i < |owners| => Group(s.subjects, side)[owners[i]].value.slot)
  }

  /** The attached claims at the winning authority, by owner, and the slots they name. */
  ghost function TopClaims(s: RegistryState, side: SideRef, policy: Policy): (r: seq<Attestation>)
    requires SideAuthorities(s, side, policy, true) != {}
    ensures |r| == |TopSides(s, side, policy)|
  {
    var owners := Sorted(TopSides(s, side, policy), OwnerRank);
    assert forall i :: 0 <= i < |owners| ==> owners[i] in owners;
    SideMetas(s, side, owners)
  }

  ghost function TopClaimSlots(s: RegistryState, side: SideRef, policy: Policy): (r: seq<U32>)
    requires SideAuthorities(s, side, policy, true) != {}
    ensures |r| == |TopSides(s, side, policy)|
  {
    var owners := Sorted(TopSides(s, side, policy), OwnerRank);
    assert forall i :: 0 <= i < |owners| ==> owners[i] in owners;
    SideSlots(s, side, owners)
  }

  ghost function SideValidation(s: RegistryState, side: SideRef, policy: Policy, attached: bool): Validation
  {
    var owners := SideOwners(s, side, policy, attached);
    CombineValidation(exists o :: o in owners && s.subjects[side][o].meta.inLifetime,
                      forall o :: o in owners ==> s.subjects[side][o].meta.inLifetime)
  }

  datatype Derivation = Derivation(
    hasRecords: bool, state: PortState, validation: Validation, authority: Authority, incarnation: int,
    ports: seq<PortRef>, slots: seq<U32>, top: seq<Attestation>)

  /** derive_subject(): one side from its own records alone. */
  ghost function DeriveSide(s: RegistryState, side: SideRef, policy: Policy): Derivation
  {
    var incarnation := IncarnationOf(s, side.objectId);
    var none := Derivation(false, Unknown, Unvalidated, NO_AUTHORITY, incarnation, [], [], []);
    var up, down := SideAuthorities(s, side, policy, true), SideAuthorities(s, side, policy, false);
    var upValid, downValid := SideValidation(s, side, policy, true), SideValidation(s, side, policy, false);
    if !ObjectExists(s, side.objectId) || (up == {} && down == {}) then none
    else if AttachedWins(s, side, policy) then
      var ports := Sorted(TopPorts(s, side, policy), PortRank);
      Derivation(true, if |ports| > 1 then Conflicting else Attached, upValid, BestOf(up), incarnation,
                 ports, TopClaimSlots(s, side, policy), TopClaims(s, side, policy))
    else if DetachedWins(s, side, policy) then
      Derivation(true, Empty, downValid, BestOf(down), incarnation, [], [], [])
    else
      Derivation(true, Conflicting,
                 CombineValidation(upValid != Unvalidated || downValid != Unvalidated, upValid == Validated
                   || downValid == Validated),
                 BestOf(up), incarnation, [], [], [])
  }

  /** subject_double_booked() */
  ghost predicate DoubleBooked(s: RegistryState, side: SideRef, policy: Policy)
  {
    DeriveSide(s, side, policy).state == Conflicting && |DeriveSide(s, side, policy).ports| > 1
  }

  // ---- Catalogue lookups ----

  /** The record of highest authority; the lowest owner breaks a tie. */
  ghost function WinningOwner<V>(group: map<Owner, Folded<V>>, owners: set<Owner>): (o: Owner)
    requires owners != {} && owners <= group.Keys
    ensures o in owners
  {
    var authorities := set o | o in owners :: group[o].meta.authority;
    var some :| some in owners;
    assert group[some].meta.authority in authorities;
    var best := BestOf(authorities);
    var top := set o | o in owners && group[o].meta.authority == best;
    var witness' :| witness' in owners && group[witness'].meta.authority == best;
    assert witness' in top;
    Least(top, OwnerRank)
  }

  ghost function TopOwners<V>(group: map<Owner, Folded<V>>, owners: set<Owner>): (r: set<Owner>)
    requires owners != {} && owners <= group.Keys
  {
    set o | o in owners && group[o].meta.authority == group[WinningOwner(group, owners)].meta.authority
  }

  /** Registrations are catalogue facts: they count whether or not their owner is fenced. */
  ghost function RegistrationOf(s: RegistryState, x: Id): Option<ObjectDescriptor>
  {
    var group := Group(s.objects, x);
    if group == map[] then None else
      var o :| o in group;
      assert o in group.Keys;
      Some(group[WinningOwner(group, group.Keys)].value)
  }

  ghost function EndpointOf(s: RegistryState, x: Id): Option<EndpointDescriptor>
  {
    var group := Group(s.endpoints, x);
    if group == map[] then None else
      var o :| o in group;
      assert o in group.Keys;
      Some(group[WinningOwner(group, group.Keys)].value)
  }

  ghost function Unfenced<V>(s: RegistryState, group: map<Owner, Folded<V>>): set<Owner>
  {
    set o | o in group && !Fenced(s, o)
  }

  function CountRank(x: U32): int { x }

  /** port_capability_of(): the best published capability, with the smallest count equal authorities admit. */
  ghost function CapabilityOf(s: RegistryState, port: PortRef): PortCapability
  {
    var group := Group(s.portCapabilities, port);
    var owners := Unfenced(s, group);
    if owners != {} then
      var o := WinningOwner(group, owners);
      var counts: set<U32> := set w | w in TopOwners(group, owners) :: group[w].value.maxAttachments;
      assert o in TopOwners(group, owners);
      assert group[o].value.maxAttachments in counts;
      var least := Least(counts, CountRank);
      group[o].value.(maxAttachments := if least == 0 then 1 else least)
    else if EndpointOf(s, port.endpoint).Some? then EndpointOf(s, port.endpoint).value.defaultCapability
    else PortCapability(1, CONNECTOR_UNKNOWN, MEDIA_UNKNOWN, 0)
  }

  ghost function SideDescriptorOf(s: RegistryState, side: SideRef): SideDescriptor
  {
    var r := RegistrationOf(s, side.objectId);
    if r.None? || side.side >= |r.value.sides| then SideDescriptor(CONNECTOR_UNKNOWN, MEDIA_UNKNOWN, 0)
    else r.value.sides[side.side]
  }

  predicate ConnectorCompatible(side: SideDescriptor, c: PortCapability)
  {
    side.connector == CONNECTOR_UNKNOWN || c.connector == CONNECTOR_UNKNOWN || side.connector == c.connector
  }

  predicate MediaCompatible(side: SideDescriptor, c: PortCapability)
  {
    side.media == MEDIA_UNKNOWN || c.media == MEDIA_UNKNOWN || side.media == c.media
  }

  // ---- One port ----

  /** The owning source still asserts that this subject sits in this slot, in this very record. */
  ghost predicate SubjectAgrees(s: RegistryState, key: SlotKey, f: Folded<PortValue>, current: int)
  {
    var side := f.value.subject;
    && Has(s.subjects, side, key.owner)
    && var g := s.subjects[side][key.owner];
       && g.value.attached && g.value.port == key.port && g.value.slot == key.slot
       && g.value.objectIncarnation == current && g.meta.generation == f.meta.generation
  }

  ghost predicate SlotLive(s: RegistryState, policy: Policy, port: PortRef, key: SlotKey)
    requires Has(s.ports, port, key)
  {
    var f := s.ports[port][key];
    var x := f.value.subject.objectId;
    && !Fenced(s, key.owner) && Participates(f.meta, policy)
    && ObjectExists(s, x) && !Excluded(s, x)
    && f.value.objectIncarnation == IncarnationOf(s, x)
    && (!f.value.empty ==> SubjectAgrees(s, key.(port := port), f, IncarnationOf(s, x)))
  }

  ghost function LiveSlots(s: RegistryState, policy: Policy, port: PortRef): (r: set<SlotKey>)
    ensures forall key :: key in r ==> Has(s.ports, port, key)
  {
    set key | key in Group(s.ports, port) && SlotLive(s, policy, port, key)
  }

  ghost function SlotAuthorities(s: RegistryState, policy: Policy, port: PortRef): set<Authority>
  {
    set key | key in LiveSlots(s, policy, port) :: s.ports[port][key].meta.authority
  }

  /** The winning authority of a port. */
  ghost function PortAuthority(s: RegistryState, policy: Policy, port: PortRef): Authority
    requires SlotAuthorities(s, policy, port) != {}
  {
    BestOf(SlotAuthorities(s, policy, port))
  }

  /** Live slots at the winning authority, occupied or vacated. */
  ghost function TopSlots(s: RegistryState, policy: Policy, port: PortRef, empty: bool): (r: set<SlotKey>)
    requires SlotAuthorities(s, policy, port) != {}
    ensures r <= Group(s.ports, port).Keys
  {
    set key | key in LiveSlots(s, policy, port)
              && s.ports[port][key].meta.authority == PortAuthority(s, policy, port)
              && s.ports[port][key].value.empty == empty
  }

  ghost function OverriddenSlots(s: RegistryState, policy: Policy, port: PortRef): set<SlotKey>
    requires SlotAuthorities(s, policy, port) != {}
  {
    set key | key in LiveSlots(s, policy, port) && s.ports[port][key].meta.authority != PortAuthority(s, policy, port)
  }

  ghost function SlotMetas(s: RegistryState, port: PortRef, keys: seq<SlotKey>): (r: seq<Attestation>)
    requires forall i :: 0 <= i < |keys| ==> keys[i] in Group(s.ports, port)
    ensures |r| == |keys|
  {
    seq(|keys|, i requires 0 <= i < |keys| => Group(s.ports, port)[keys[i]].meta)
  }

  /** The records of the given slots, cited in claim order. */
  ghost function Cite(s: RegistryState, port: PortRef, keys: set<SlotKey>): (r: seq<Attestation>)
    requires keys <= Group(s.ports, port).Keys
    ensures |r| == |keys|
  {
    var ordered := Sorted(keys, SlotRank);
    assert forall i :: 0 <= i < |ordered| ==> ordered[i] in ordered;
    SortBy(SlotMetas(s, port, ordered), ClaimRank)
  }

  ghost function SlotValidation(s: RegistryState, port: PortRef, keys: set<SlotKey>): Validation
    requires keys <= Group(s.ports, port).Keys
  {
    CombineValidation(exists key :: key in keys && s.ports[port][key].meta.inLifetime,
                      forall key :: key in keys ==> s.ports[port][key].meta.inLifetime)
  }

  ghost function SubjectsAt(s: RegistryState, policy: Policy, port: PortRef): set<SideRef>
    requires SlotAuthorities(s, policy, port) != {}
  {
    set key | key in TopSlots(s, policy, port, false) :: s.ports[port][key].value.subject
  }

  ghost function SlotsOf(s: RegistryState, policy: Policy, port: PortRef, side: SideRef): (r: set<SlotKey>)
    requires SlotAuthorities(s, policy, port) != {}
    ensures r <= TopSlots(s, policy, port, false)
    ensures side in SubjectsAt(s, policy, port) ==> r != {}
  {
    var r := set key | key in TopSlots(s, policy, port, false) && s.ports[port][key].value.subject == side;
    assert forall key :: key in TopSlots(s, policy, port, false) && s.ports[port][key].value.subject == side ==>
           key in r;
    r
  }

  datatype Edge = Edge(
    subject: SideRef, port: PortRef, slot: U32, authority: Authority, validation: Validation,
    connectorCompatible: bool, mediaCompatible: bool, conflicting: bool, incarnation: int,
    claims: seq<Attestation>, overridden: seq<Attestation>, overriddenTotal: nat)

  datatype Note = Note(reason: Reason, subject: Option<SideRef>, port: Option<PortRef>, claims: seq<Attestation>)

  datatype PortView = PortView(
    port: PortRef, state: PortState, validation: Validation, capability: PortCapability,
    edges: seq<Edge>, conflicts: seq<Note>, emptinessClaims: seq<Attestation>)

  /** The first claims of lower authority in key order, at most as many as reported, in claim order. */
  ghost function OverriddenList(s: RegistryState, l: Limits, policy: Policy, port: PortRef): seq<Attestation>
    requires SlotAuthorities(s, policy, port) != {}
  {
    var kept := FirstOf(Sorted(OverriddenSlots(s, policy, port), SlotRank), l.maxOverridden);
    SortBy(SlotMetas(s, port, kept), ClaimRank)
  }

  function FirstOf(keys: seq<SlotKey>, n: nat): (r: seq<SlotKey>)
    ensures forall i :: 0 <= i < |r| ==> r[i] in keys
  {
    if |keys| > n then keys[..n] else keys
  }

  ghost predicate AnyDoubleBooked(s: RegistryState, policy: Policy, port: PortRef)
    requires SlotAuthorities(s, policy, port) != {}
  {
    exists side :: side in SubjectsAt(s, policy, port) && DoubleBooked(s, side, policy)
  }

  ghost function StateOf(s: RegistryState, policy: Policy, port: PortRef): PortState
  {
    if SlotAuthorities(s, policy, port) == {} then Unknown
    else if TopSlots(s, policy, port, false) == {} then
      (if TopSlots(s, policy, port, true) == {} then Unknown else Empty)
    else if |SubjectsAt(s, policy, port)| > CapabilityOf(s, port).maxAttachments
         || TopSlots(s, policy, port, true) != {} || AnyDoubleBooked(s, policy, port) then Conflicting
    else Attached
  }

  /** The last slot in key order. */
  ghost function LastSlot(keys: set<SlotKey>): (key: SlotKey)
    requires keys != {}
    ensures key in keys
  {
    var ordered := Sorted(keys, SlotRank);
    assert ordered[|ordered| - 1] in ordered;
    ordered[|ordered| - 1]
  }

  ghost function EdgeOf(s: RegistryState, l: Limits, policy: Policy, port: PortRef, side: SideRef): Edge
    requires SlotAuthorities(s, policy, port) != {} && side in SubjectsAt(s, policy, port)
  {
    var keys := SlotsOf(s, policy, port, side);
    var last := LastSlot(keys);
    var descriptor, capability := SideDescriptorOf(s, side), CapabilityOf(s, port);
    Edge(side, port, last.slot, PortAuthority(s, policy, port), SlotValidation(s, port, keys),
         ConnectorCompatible(descriptor, capability), MediaCompatible(descriptor, capability),
         StateOf(s, policy, port) == Conflicting, s.ports[port][last].value.objectIncarnation, Cite(s, port, keys),
         OverriddenList(s, l, policy, port), |OverriddenSlots(s, policy, port)|)
  }

  ghost function EdgesOf(s: RegistryState, l: Limits, policy: Policy, port: PortRef,
                         sides: seq<SideRef>): (r: seq<Edge>)
    requires SlotAuthorities(s, policy, port) != {} && forall side :: side in sides ==>
            side in SubjectsAt(s, policy, port)
    ensures |r| == |sides|
  {
    seq(|sides|, i requires 0 <= i < |sides| => EdgeOf(s, l, policy, port, sides[i]))
  }

  /** Declared mismatches are reported per edge; the attachment still stands. */
  ghost function EdgeNotes(edges: seq<Edge>): seq<Note>
  {
    if edges == [] then []
    else
      var e := edges[0];
      (if e.connectorCompatible then [] else [Note(IncompatibleConnector, Some(e.subject), Some(e.port), e.claims)]) +
      (if e.mediaCompatible then [] else [Note(IncompatibleMedia, Some(e.subject), Some(e.port), e.claims)]) +
      EdgeNotes(edges[1..])
  }

  ghost function BookingNotes(s: RegistryState, policy: Policy, port: PortRef, sides: seq<SideRef>): seq<Note>
  {
    if sides == [] then []
    else
      (if DoubleBooked(s, sides[0], policy)
       then [Note(ObjectSideDoubleBooked, Some(sides[0]), Some(port),
         SortBy(DeriveSide(s, sides[0], policy).top, ClaimRank))]
       else []) + BookingNotes(s, policy, port, sides[1..])
  }

  ghost function ConflictNotes(s: RegistryState, policy: Policy, port: PortRef): seq<Note>
    requires SlotAuthorities(s, policy, port) != {}
  {
    var occupied, vacant := TopSlots(s, policy, port, false), TopSlots(s, policy, port, true);
    (if |SubjectsAt(s, policy, port)| > CapabilityOf(s, port).maxAttachments
     then [Note(TooManyAttachments, None, Some(port), Cite(s, port, occupied))] else []) +
    (if vacant != {} then [Note(EmptyAndOccupied, None, Some(port), Cite(s, port, occupied + vacant))] else []) +
    BookingNotes(s, policy, port, Sorted(SubjectsAt(s, policy, port), SideRank))
  }

  /** derive_port_view() */
  ghost function DerivePort(s: RegistryState, l: Limits, policy: Policy, port: PortRef): PortView
  {
    if SlotAuthorities(s, policy, port) == {} then
      PortView(port, Unknown, Unvalidated, CapabilityOf(s, port), [], [], [])
    else
      var occupied, vacant := TopSlots(s, policy, port, false), TopSlots(s, policy, port, true);
      var validation := SlotValidation(s, port, occupied + vacant);
      var emptiness := Cite(s, port, vacant);
      if occupied == {} then
        PortView(port, StateOf(s, policy, port), validation, CapabilityOf(s, port), [], [], emptiness)
      else
        var edges := EdgesOf(s, l, policy, port, Sorted(SubjectsAt(s, policy, port), SideRank));
        PortView(port, StateOf(s, policy, port), validation, CapabilityOf(s, port), edges,
                 EdgeNotes(edges) + ConflictNotes(s, policy, port), emptiness)
  }
}
