// The view of one object: its registration, incarnation, lifecycle, capability, and where
// each of its sides sits.

module Objects {
  import opened Words
  import opened Evidence
  import opened Ordering
  import opened State
  import opened Lifecycle
  import opened Derive

  datatype LifecycleState = Registered | Unattached | InPlace | InQuarantine | Gone | OutOfService | Disputed

  datatype SideView = SideView(
    side: U32, descriptor: SideDescriptor, state: PortState, validation: Validation, edges: seq<Edge>,
      conflicts: seq<Note>)

  datatype ObjectView = ObjectView(
    id: Id, kind: ObjectKind, physicalLabel: Text, serial: Text, location: Text, incarnation: int,
    lifecycle: LifecycleState, capability: NominalCapability, sides: seq<SideView>, conflicts: seq<Note>,
      validation: Validation)

  /** Some record as authoritative as the winner disagrees with it. */
  ghost predicate Disagree<V>(group: map<Owner, Folded<V>>, owners: set<Owner>)
    requires owners != {} && owners <= group.Keys
  {
    exists o :: o in TopOwners(group, owners) && group[o].value != group[WinningOwner(group, owners)].value
  }

  /** The replacement unit's serial, when the winning live reincarnation names one. */
  ghost function SerialOf(s: RegistryState, x: Id, registered: Text): Text
  {
    var owners := ReincarnationOwners(s, x);
    if owners == {} then registered
    else
      var chosen := WinningOwner(Group(s.reincarnations, x), owners);
      if s.reincarnations[x][chosen].value.serial == [] then registered else s.reincarnations[x][chosen].value.serial
  }

  ghost function ObjectCapabilityOf(s: RegistryState, x: Id, registered: NominalCapability): NominalCapability
  {
    var group := Group(s.objectCapabilities, x);
    var owners := Unfenced(s, group);
    if owners == {} then registered else group[WinningOwner(group, owners)].value
  }

  ghost function CapabilityNotes(s: RegistryState, x: Id): seq<Note>
  {
    var group, registrations := Group(s.objectCapabilities, x), Group(s.objects, x);
    var owners := Unfenced(s, group);
    (if owners != {} && Disagree(group, owners) then [Note(CapabilityConflict, None, None, [])] else []) +
    (if registrations.Keys != {} && Disagree(registrations, registrations.Keys)
      then [Note(CapabilityConflict, None, None, [])] else [])
  }

  /** An edge of a side view: the i-th port, with the i-th slot in owner order. */
  ghost function SideEdge(s: RegistryState, side: SideRef, d: Derivation, i: nat): Edge
    requires i < |d.ports|
  {
    var descriptor, capability := SideDescriptorOf(s, side), CapabilityOf(s, d.ports[i]);
    Edge(side, d.ports[i], if i < |d.slots| then d.slots[i] else 0, d.authority, d.validation,
         ConnectorCompatible(descriptor, capability), MediaCompatible(descriptor, capability),
         d.state == Conflicting, d.incarnation, SortBy(d.top, ClaimRank), [], 0)
  }

  ghost function SideEdges(s: RegistryState, side: SideRef, d: Derivation): (r: seq<Edge>)
    ensures |r| == |d.ports|
  {
    seq(|d.ports|, i requires 0 <= i < |d.ports| => SideEdge(s, side, d, i))
  }

  ghost function DeriveSideView(s: RegistryState, side: SideRef, policy: Policy): SideView
  {
    var d := DeriveSide(s, side, policy);
    SideView(side.side, SideDescriptorOf(s, side), d.state, d.validation, SideEdges(s, side, d),
             if d.state == Conflicting && |d.ports| > 1
             then [Note(ObjectSideDoubleBooked, Some(side), None, SortBy(d.top, ClaimRank))] else [])
  }

  ghost function SideViews(s: RegistryState, x: Id, policy: Policy, n: nat): (r: seq<SideView>)
    requires n < TWO_32
    ensures |r| == n
  {
    seq(n, i requires 0 <= i < n => DeriveSideView(s, SideRef(x, i), policy))
  }

  ghost predicate SomeSide(s: RegistryState, x: Id, policy: Policy, n: nat, wanted: set<PortState>)
    requires n < TWO_32
  {
    exists i :: 0 <= i < n && DeriveSide(s, SideRef(x, i), policy).state in wanted
  }

  function LifecycleStateOf(v: Verdict, attached: bool, detached: bool): LifecycleState
  {
    if v.conflicting then Disputed
    else match v.action
      case Retired => OutOfService
      case Removed => Gone
      case Quarantined => InQuarantine
      case Present => if attached then InPlace else if detached then Unattached else Registered
  }

  /** The claims cited for a lifecycle conflict: every candidate at the best authority. */
  ghost function LifecycleCitations(s: RegistryState, x: Id): seq<Attestation>
    requires CandidateAuthorities(s, x) != {}
  {
    var best := BestLifecycleAuthority(s, x);
    TopMetas(Group(s.lifecycles, x), LifecycleOwners(s, x), best) +
      TopMetas(Group(s.reincarnations, x), ReincarnationOwners(s, x), best)
  }

  ghost function TopMetas<V>(group: map<Owner, Folded<V>>, owners: set<Owner>, best: Authority): seq<Attestation>
    requires owners <= group.Keys
  {
    var top := Sorted((set o | o in owners && group[o].meta.authority == best), OwnerRank);
    assert forall i :: 0 <= i < |top| ==> top[i] in top;
    OwnerMetas(group, top)
  }

  function OwnerMetas<V>(group: map<Owner, Folded<V>>, owners: seq<Owner>): (r: seq<Attestation>)
    requires forall i :: 0 <= i < |owners| ==> owners[i] in group
    ensures |r| == |owners|
  {
    seq(|owners|, i requires 0 <= i < |owners| => group[owners[i]].meta)
  }

  ghost function LifecycleNotes(s: RegistryState, x: Id): seq<Note>
  {
    if CandidateAuthorities(s, x) != {} && LifecycleOf(s, x).conflicting
    then [Note(LifecycleConflict, None, None, SortBy(LifecycleCitations(s, x), ClaimRank))] else []
  }

  ghost function SidesValidation(s: RegistryState, x: Id, policy: Policy, n: nat): Validation
    requires n < TWO_32
  {
    CombineValidation(
      exists i ::
        0 <= i < n && DeriveSide(s, SideRef(x, i), policy).hasRecords
        && DeriveSide(s, SideRef(x, i), policy).validation != Unvalidated,
      forall i :: 0 <= i < n && DeriveSide(s, SideRef(x, i), policy).hasRecords ==>
        DeriveSide(s, SideRef(x, i), policy).validation == Validated)
  }

  /** derive_object_view(), with sides and without history; None when the object is not registered. */
  ghost function DeriveObject(s: RegistryState, policy: Policy, x: Id): Option<ObjectView>
  {
    var r := RegistrationOf(s, x);
    if r.None? || |r.value.sides| >= TWO_32 then None
    else
      var d := r.value;
      var n := |d.sides|;
      Some(ObjectView(
             x, d.kind, d.physicalLabel, SerialOf(s, x, d.serial), d.location, IncarnationOf(s, x),
             LifecycleStateOf(LifecycleOf(s, x), SomeSide(s, x, policy, n, {Attached, Conflicting}),
               SomeSide(s, x, policy, n, {Empty})),
             ObjectCapabilityOf(s, x, d.capability), SideViews(s, x, policy, n),
             CapabilityNotes(s, x) + LifecycleNotes(s, x), SidesValidation(s, x, policy, n)))
  }
}
