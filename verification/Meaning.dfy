// What a record means, read off its payload and one key at a time: what it says at the key, what
// the key holds afterwards, and exactly when the record is taken and under which answer.

module Meaning {
  import opened Words
  import opened Evidence
  import opened Ordering
  import opened State
  import opened Fold
  import opened Lifecycle
  import opened Ingest
  import opened Keys
  import opened Effects

  // ---- What a record says at a key ----

  predicate Places(p: Payload) { p.Attach? || p.Detach? || p.Move? }

  /** The record puts its subject into the slot. */
  predicate Occupies(p: Payload, port: PortRef, slot: U32)
  {
    (p.Attach? && p.port == port && p.slot == slot) || (p.Move? && p.to == port && p.toSlot == slot)
  }

  /** The record takes its subject out of the slot. */
  predicate Vacates(p: Payload, port: PortRef, slot: U32)
  {
    || (p.Detach? && p.hasFromPort && p.fromPort == port && p.slot == slot)
    || (p.Move? && p.from == port && p.fromSlot == slot && !Occupies(p, port, slot))
  }

  /** Where the record leaves its subject: the port and slot, and the port it moved from. */
  function SideAfter(p: Payload): SubjectValue
    requires Places(p)
  {
    if p.Attach? then SubjectValue(p.objectIncarnation, true, p.port, p.slot, false, NO_PORT)
    else if p.Move? then SubjectValue(p.objectIncarnation, true, p.to, p.toSlot, true, p.from)
    else SubjectValue(p.objectIncarnation, false, NO_PORT, 0, false, NO_PORT)
  }

  /** What a record says at one key of its owner, if anything. */
  function Says(e: Evidence, k: Key): Option<Claim>
  {
    var p := e.payload;
    if KeyOwner(k) != OwnerOf(e) then None
    else
      match k
      case ObjectKey(x, _) =>
        if p.RegisterObject? && p.objectDescriptor.id == x then Some(ObjectClaim(x, p.objectDescriptor)) else None
      case EndpointKey(x, _) =>
        if p.RegisterEndpoint? && p.endpointDescriptor.id == x then Some(EndpointClaim(x, p.endpointDescriptor))
        else None
      case SubjectKey(side, _) =>
        if Places(p) && p.subject == side then Some(SubjectClaim(side, SideAfter(p))) else None
      case PortKey(key) =>
        if Occupies(p, key.port, key.slot) then Some(PortClaim(key, PortValue(p.objectIncarnation, false, p.subject)))
        else if Vacates(p, key.port, key.slot) then
          Some(PortClaim(key, PortValue(p.objectIncarnation, true, p.subject)))
        else None
      case LifecycleKey(x, _) =>
        if p.SetLifecycle? && p.objectId == x
        then Some(LifecycleClaim(x, LifecycleValue(p.objectIncarnation, p.action, p.reason))) else None
      case ReincarnationKey(x, _) =>
        if p.ReincarnateObject? && p.objectId == x
        then Some(ReincarnationClaim(x, ReincarnationValue(p.fromIncarnation, TargetOf(p.fromIncarnation), p.serial,
          p.reason)))
        else None
      case ObjectCapabilityKey(x, _) =>
        if p.PublishObjectCapability? && p.objectId == x then Some(ObjectCapabilityClaim(x, p.nominal)) else None
      case PortCapabilityKey(port, _) =>
        if p.PublishPortCapability? && p.port == port then Some(PortCapabilityClaim(port, p.capability)) else None
  }

  /** The claims a record stages are exactly what it says, key by key. */
  lemma SaidExactly(e: Evidence, k: Key)
    ensures Find(ClaimsOf(e), OwnerOf(e), k) == Says(e, k)
  {
    var cs, o := ClaimsOf(e), OwnerOf(e);
    assert Find(cs, o, k) == if KeyOf(cs[0], o) == k then Some(cs[0]) else Find(cs[1..], o, k);
    if |cs| > 1 {
      assert Find(cs[1..], o, k) == if KeyOf(cs[1], o) == k then Some(cs[1]) else Find(cs[1..][1..], o, k);
      if |cs| > 2 {
        assert Find(cs[1..][1..], o, k) == if KeyOf(cs[2], o) == k then Some(cs[2]) else None;
      }
    }
  }

  lemma ClaimIsSaid(e: Evidence, c: Claim)
    requires c in ClaimsOf(e)
    ensures Says(e, KeyOf(c, OwnerOf(e))) == Some(c)
  {
    hide ClaimsOf, Says, KeyOf;
    var k := KeyOf(c, OwnerOf(e));
    SaidExactly(e, k);
    OneClaimPerKey(e, c, Find(ClaimsOf(e), OwnerOf(e), k).value);
  }

  // ---- How a key stands to the record ----

  /** The record says something newer than what the key holds. */
  predicate NewAt(s: RegistryState, e: Evidence, k: Key)
  {
    Says(e, k).Some? && (At(s, k).Some? ==> At(s, k).value.meta.generation < e.header.generation)
  }

  /** The key holds something newer than what the record says. */
  predicate OldAt(s: RegistryState, e: Evidence, k: Key)
  {
    Says(e, k).Some? && At(s, k).Some? && At(s, k).value.meta.generation > e.header.generation
  }

  /** The key holds something else of the same generation. */
  predicate ClashAt(s: RegistryState, e: Evidence, k: Key)
  {
    Says(e, k).Some? && At(s, k).Some? && At(s, k).value.meta.generation == e.header.generation
    && !SameContent(At(s, k).value.value, Says(e, k).value)
  }

  lemma OutcomeSaid(s: RegistryState, e: Evidence, c: Claim, meta: Attestation)
    requires c in ClaimsOf(e) && meta.owner == OwnerOf(e) && meta.generation == e.header.generation
    ensures var k := KeyOf(c, OwnerOf(e));
            && (OutcomeOf(s, c, meta) == Insert <==> NewAt(s, e, k))
            && (OutcomeOf(s, c, meta) == Superseded <==> OldAt(s, e, k))
            && (OutcomeOf(s, c, meta) == Collision <==> ClashAt(s, e, k))
  {
    hide ClaimsOf, Says, KeyOf, At, OutcomeOf, SameContent;
    ClaimIsSaid(e, c);
    OutcomeByKey(s, c, meta);
  }

  // ---- What a key holds afterwards ----

  /**
    * After a record that was taken, a key at which it says something newer holds exactly that; if
    * what it says is older, or a reincarnation that raises nothing, the key takes it into its ring.
    * Every other key, and every key after a refusal, holds what it held.
    */
  lemma RecordMeans(s: RegistryState, l: Limits, h: nat, e: Evidence, receivedAt: I64, durable: bool, live: bool,
                    k: Key)
    requires e.header.source in s.sources
    ensures var r := IngestRecord(s, l, h, e, receivedAt, durable, live);
            var meta := MetaOf(s, e, receivedAt, live);
            At(r.state, k) ==
            if !IsAccepted(r.disposition) || Says(e, k).None? then At(s, k)
            else if NewAt(s, e, k) && !Stale(s, e) then WinAt(At(s, k), meta, Says(e, k).value, h)
            else if NewAt(s, e, k) || OldAt(s, e, k) then LoseAt(At(s, k), meta, h)
            else At(s, k)
  {
    hide Decide, IngestRecord, ValidShape, ClaimsOf, Says, At, KeyOf, OutcomeOf, WinAt, LoseAt, Stale, SameContent;
    var r, meta := IngestRecord(s, l, h, e, receivedAt, durable, live), MetaOf(s, e, receivedAt, live);
    IngestAt(s, l, h, e, receivedAt, durable, live, k);
    SaidExactly(e, k);
    if Says(e, k).Some? {
      OutcomeSaid(s, e, Says(e, k).value, meta);
      AppliedExactly(s, l, h, e, receivedAt, durable, live);
    }
  }

  /** The attestation of a claim a record won: everything the record says about itself, and who sent it. */
  lemma AttestedExactly(s: RegistryState, l: Limits, h: nat, e: Evidence, receivedAt: I64, durable: bool, live: bool,
                        k: Key)
    requires e.header.source in s.sources && NewAt(s, e, k) && !Stale(s, e)
    requires IsAccepted(IngestRecord(s, l, h, e, receivedAt, durable, live).disposition)
    ensures var f, source := At(IngestRecord(s, l, h, e, receivedAt, durable, live).state, k), e.header.source;
            && f.Some? && f.value.value == Says(e, k).value
            && f.value.meta.owner == Owner(source, e.header.incarnation)
            && f.value.meta.generation == e.header.generation && f.value.meta.evidence == e.header.id
            && f.value.meta.observedAt == e.header.observedAt && f.value.meta.receivedAt == receivedAt
            && f.value.meta.provenance == e.header.provenance && f.value.meta.inLifetime == live
            && f.value.meta.authority == s.sources[source].descriptor.authority
            && f.value.meta.objectIncarnation ==
               match e.payload {
                 case Attach(_, _, _, _) => e.payload.objectIncarnation
                 case Detach(_, _, _, _, _) => e.payload.objectIncarnation
                 case Move(_, _, _, _, _, _) => e.payload.objectIncarnation
                 case SetLifecycle(_, _, _, _) => e.payload.objectIncarnation
                 case _ => 0
               }
  {
    hide IngestRecord, Says, At, Stale;
    RecordMeans(s, l, h, e, receivedAt, durable, live, k);
  }

  /** A record changes the tables if and only if it is taken and some key did not hold it already. */
  lemma AppliedExactly(s: RegistryState, l: Limits, h: nat, e: Evidence, receivedAt: I64, durable: bool, live: bool)
    ensures Applied(s, l, e, receivedAt, durable, live) <==>
            && IsAccepted(IngestRecord(s, l, h, e, receivedAt, durable, live).disposition)
            && exists k :: NewAt(s, e, k) || OldAt(s, e, k)
  {
    hide ClaimsOf, Says, At, KeyOf, OutcomeOf, ApplyChange, NoteRecord, ValidShape, SameContent, LabelConflict;
    if ValidShape(e, l) && KnownSession(s, e) {
      var meta := MetaOf(s, e, receivedAt, live);
      StagedExactly(s, l, e, meta);
      hide Decide;
    }
  }

  lemma SomeClaim(s: RegistryState, e: Evidence, meta: Attestation)
    requires meta.owner == OwnerOf(e) && meta.generation == e.header.generation
    ensures (exists k :: NewAt(s, e, k)) <==> (exists c :: c in ClaimsOf(e) && OutcomeOf(s, c, meta) == Insert)
    ensures (exists k :: OldAt(s, e, k)) <==> (exists c :: c in ClaimsOf(e) && OutcomeOf(s, c, meta) == Superseded)
    ensures (exists k :: ClashAt(s, e, k)) <==> (exists c :: c in ClaimsOf(e) && OutcomeOf(s, c, meta) == Collision)
  {
    hide ClaimsOf, Says, At, KeyOf, OutcomeOf, SameContent, NewAt, OldAt, ClashAt;
    forall c | c in ClaimsOf(e)
      ensures var k := KeyOf(c, OwnerOf(e));
              && (OutcomeOf(s, c, meta) == Insert <==> NewAt(s, e, k))
              && (OutcomeOf(s, c, meta) == Superseded <==> OldAt(s, e, k))
              && (OutcomeOf(s, c, meta) == Collision <==> ClashAt(s, e, k))
    {
      OutcomeSaid(s, e, c, meta);
    }
    forall k | NewAt(s, e, k) || OldAt(s, e, k) || ClashAt(s, e, k)
      ensures exists c :: c in ClaimsOf(e) && KeyOf(c, OwnerOf(e)) == k
    {
      assert Says(e, k).Some? by { Spoken(s, e, k); }
      SaidExactly(e, k);
      assert Find(ClaimsOf(e), OwnerOf(e), k).value in ClaimsOf(e);
    }
  }

  lemma Spoken(s: RegistryState, e: Evidence, k: Key)
    requires NewAt(s, e, k) || OldAt(s, e, k) || ClashAt(s, e, k)
    ensures Says(e, k).Some?
  {
  }

  lemma StagedExactly(s: RegistryState, l: Limits, e: Evidence, meta: Attestation)
    requires meta.owner == OwnerOf(e) && meta.generation == e.header.generation
    ensures var d := Decide(s, l, e, meta);
            d.staged.apply <==> IsAccepted(d.disposition) && exists k :: NewAt(s, e, k) || OldAt(s, e, k)
  {
    hide ClaimsOf, OutcomeOf, NewAt, OldAt, ClashAt, Decide;
    SomeClaim(s, e, meta);
    if Places(e.payload) { PlacementStages(s, l, e, meta); } else { SingleStages(s, l, e, meta); }
  }

  lemma PlacementStages(s: RegistryState, l: Limits, e: Evidence, meta: Attestation)
    requires Places(e.payload)
    ensures var d := Decide(s, l, e, meta);
            d.staged.apply <==>
            && IsAccepted(d.disposition)
            && exists c :: c in ClaimsOf(e) && OutcomeOf(s, c, meta) in {Insert, Superseded}
  {
    hide OutcomeOf, IncarnationOf, PortExists, PortCapacityReached, ClaimsOf, ObjectExists, Fenced;
    var writes, rings := Select(s, ClaimsOf(e), meta, Insert), Select(s, ClaimsOf(e), meta, Superseded);
    assert writes != [] ==> writes[0] in writes;
    assert rings != [] ==> rings[0] in rings;
  }

  lemma SingleStages(s: RegistryState, l: Limits, e: Evidence, meta: Attestation)
    requires !Places(e.payload)
    ensures var d := Decide(s, l, e, meta);
            d.staged.apply <==>
            && IsAccepted(d.disposition)
            && exists c :: c in ClaimsOf(e) && OutcomeOf(s, c, meta) in {Insert, Superseded}
  {
    hide OutcomeOf, LabelConflict, IncarnationOf, PortExists, TargetOf, ObjectExists, Fenced;
    assert ClaimsOf(e) == [ClaimsOf(e)[0]];
  }

  // ---- When a record is taken ----

  /** A slot the record speaks of is new to a port that is full. */
  predicate PortFull(s: RegistryState, l: Limits, e: Evidence, key: SlotKey)
  {
    && Says(e, PortKey(key)).Some? && At(s, PortKey(key)).None?
    && key.port in s.ports && |s.ports[key.port]| >= l.maxClaimsPerPort
  }

  /** The record registers what is new to a full catalogue. */
  predicate CatalogueFull(s: RegistryState, l: Limits, e: Evidence)
  {
    || (e.payload.RegisterObject? && e.payload.objectDescriptor.id !in s.objects && |s.objects| >= l.maxObjects)
    || (e.payload.RegisterEndpoint? && e.payload.endpointDescriptor.id !in s.endpoints
        && |s.endpoints| >= l.maxEndpoints)
  }

  /** Another object that is not retired carries the label the record registers. */
  ghost predicate LabelHeld(s: RegistryState, e: Evidence, x: Id)
  {
    && e.payload.RegisterObject? && e.payload.objectDescriptor.physicalLabel != []
    && x in s.objects && x != e.payload.objectDescriptor.id && LifecycleOf(s, x).action != Retired
    && exists o :: o in s.objects[x] && s.objects[x][o].value.physicalLabel == e.payload.objectDescriptor.physicalLabel
  }

  lemma LabelExactly(s: RegistryState, e: Evidence)
    requires e.payload.RegisterObject?
    ensures LabelConflict(s, e.payload.objectDescriptor).Some? <==> exists x :: LabelHeld(s, e, x)
  {
    hide LifecycleOf;
    var d := e.payload.objectDescriptor;
    forall x
      ensures x in LabelBlockers(s, d) && d.physicalLabel != [] <==> LabelHeld(s, e, x)
    {
    }
    if x :| LabelHeld(s, e, x) { assert x in LabelBlockers(s, d); }
    if d.physicalLabel != [] && LabelBlockers(s, d) != {} {
      var x :| x in LabelBlockers(s, d);
      assert LabelHeld(s, e, x);
    }
  }

  lemma PlacementTaken(s: RegistryState, l: Limits, e: Evidence, meta: Attestation)
    requires Places(e.payload) && meta.owner == OwnerOf(e) && meta.generation == e.header.generation
    ensures IsAccepted(Decide(s, l, e, meta).disposition) <==>
            !(exists key :: PortFull(s, l, e, key)) && !(exists k :: ClashAt(s, e, k))
  {
    hide ClaimsOf, OutcomeOf, ClashAt, NewAt, OldAt, PortFull, IncarnationOf, PortExists, PortCapacityReached,
         ObjectExists, Fenced;
    SomeClaim(s, e, meta);
    FullExactly(s, l, e);
  }

  lemma FullExactly(s: RegistryState, l: Limits, e: Evidence)
    ensures (exists key :: PortFull(s, l, e, key)) <==>
            exists c :: c in ClaimsOf(e) && c.PortClaim? && PortCapacityReached(s, l, c.slotKey)
  {
    hide ClaimsOf, Says;
    forall key | PortFull(s, l, e, key)
      ensures exists c :: c in ClaimsOf(e) && c.PortClaim? && c.slotKey == key && PortCapacityReached(s, l, key)
    {
      SaidExactly(e, PortKey(key));
      var c := Find(ClaimsOf(e), OwnerOf(e), PortKey(key)).value;
      assert c in ClaimsOf(e);
    }
    forall c | c in ClaimsOf(e) && c.PortClaim? && PortCapacityReached(s, l, c.slotKey)
      ensures PortFull(s, l, e, c.slotKey)
    {
      ClaimIsSaid(e, c);
    }
  }

  lemma SingleTaken(s: RegistryState, l: Limits, e: Evidence, meta: Attestation)
    requires !Places(e.payload) && meta.owner == OwnerOf(e) && meta.generation == e.header.generation
    ensures IsAccepted(Decide(s, l, e, meta).disposition) <==>
            && !(exists k :: ClashAt(s, e, k))
            && ((exists k :: NewAt(s, e, k)) ==> !CatalogueFull(s, l, e) && !(exists x :: LabelHeld(s, e, x)))
  {
    hide OutcomeOf, ClashAt, NewAt, OldAt, IncarnationOf, PortExists, ObjectExists, Fenced, LabelConflict, LabelHeld,
         TargetOf;
    SomeClaim(s, e, meta);
    assert ClaimsOf(e) == [ClaimsOf(e)[0]];
    if e.payload.RegisterObject? { LabelExactly(s, e); } else { NoLabel(s, e); }
  }

  lemma NoLabel(s: RegistryState, e: Evidence)
    requires !e.payload.RegisterObject?
    ensures !exists x :: LabelHeld(s, e, x)
  {
  }

  /**
    * A record is taken if and only if it has a valid shape and a known session; no key it speaks of
    * holds something else of its generation; a placement speaks of no new slot of a full port; a
    * registration that is news fits the catalogue and carries no label another object holds; and it
    * can be persisted, unless every key it speaks of holds it already.
    */
  lemma TakenExactly(s: RegistryState, l: Limits, h: nat, e: Evidence, receivedAt: I64, durable: bool, live: bool)
    ensures IsAccepted(IngestRecord(s, l, h, e, receivedAt, durable, live).disposition) <==>
            && ValidShape(e, l) && KnownSession(s, e) && !(exists k :: ClashAt(s, e, k))
            && (Places(e.payload) ==> !exists key :: PortFull(s, l, e, key))
            && (!Places(e.payload) && (exists k :: NewAt(s, e, k)) ==>
                  !CatalogueFull(s, l, e) && !(exists x :: LabelHeld(s, e, x)))
            && (durable || !(exists k :: NewAt(s, e, k) || OldAt(s, e, k)))
  {
    hide ClaimsOf, NewAt, OldAt, ClashAt, PortFull, LabelHeld, CatalogueFull, Decide, ValidShape, ApplyChange,
         NoteRecord;
    if ValidShape(e, l) && KnownSession(s, e) {
      var meta := MetaOf(s, e, receivedAt, live);
      StagedExactly(s, l, e, meta);
      if Places(e.payload) { PlacementTaken(s, l, e, meta); } else { SingleTaken(s, l, e, meta); }
    }
  }

  // ---- Under which answer ----

  /** The object the record is about, and the incarnation it was made against. */
  function Dated(p: Payload): Option<(Id, U64)>
  {
    if Places(p) then Some((p.subject.objectId, p.objectIncarnation))
    else if p.SetLifecycle? then Some((p.objectId, p.objectIncarnation))
    else None
  }

  /** The record speaks of an object or a port nobody has registered. */
  ghost predicate Dangling(s: RegistryState, e: Evidence)
  {
    var p := e.payload;
    || (Places(p) && !ObjectExists(s, p.subject.objectId))
    || ((p.SetLifecycle? || p.ReincarnateObject? || p.PublishObjectCapability?) && !ObjectExists(s, p.objectId))
    || (p.PublishPortCapability? && !PortExists(s, p.port))
    || (exists key :: Says(e, PortKey(key)).Some? && !PortExists(s, key.port))
  }

  lemma DanglingPlacement(s: RegistryState, e: Evidence)
    requires Places(e.payload)
    ensures Dangling(s, e) <==>
            || !ObjectExists(s, e.payload.subject.objectId)
            || exists c :: c in ClaimsOf(e) && c.PortClaim? && !PortExists(s, c.slotKey.port)
  {
    hide ClaimsOf, Says, PortExists, ObjectExists;
    forall key | Says(e, PortKey(key)).Some? && !PortExists(s, key.port)
      ensures exists c :: c in ClaimsOf(e) && c.PortClaim? && !PortExists(s, c.slotKey.port)
    {
      SaidExactly(e, PortKey(key));
      var c := Find(ClaimsOf(e), OwnerOf(e), PortKey(key)).value;
      assert c in ClaimsOf(e) && c.PortClaim? && c.slotKey == key;
    }
    forall c | c in ClaimsOf(e) && c.PortClaim? && !PortExists(s, c.slotKey.port)
      ensures Says(e, PortKey(c.slotKey)).Some?
    {
      ClaimIsSaid(e, c);
    }
  }

  lemma SlotsUnspoken(e: Evidence, key: SlotKey)
    requires !Places(e.payload)
    ensures Says(e, PortKey(key)).None?
  {
  }

  /** What a taken record is answered with, from how its keys stand, who sent it and what it speaks of. */
  ghost predicate Answered(s: RegistryState, e: Evidence, d: Disposition)
  {
    var news, olds := exists k :: NewAt(s, e, k), exists k :: OldAt(s, e, k);
    var dated := Dated(e.payload);
    var now := if dated.Some? then IncarnationOf(s, dated.value.0) else 0;
    && (d == DuplicateRecord <==> !news && !olds)
    && (d == AcceptedSuperseded <==> (!news && olds) || (news && Stale(s, e)))
    && (news && !Stale(s, e) ==>
          && (d == AcceptedFencedSource <==> Fenced(s, OwnerOf(e)))
          && (d == AcceptedFencedIncarnation <==> !Fenced(s, OwnerOf(e)) && dated.Some? && dated.value.1 < now)
          && (d == AcceptedPendingIncarnation <==> !Fenced(s, OwnerOf(e)) && dated.Some? && dated.value.1 > now)
          && (d == AcceptedPendingReference <==>
                !Fenced(s, OwnerOf(e)) && (dated.None? || dated.value.1 == now) && Dangling(s, e))
          && (d == Accepted <==>
                !Fenced(s, OwnerOf(e)) && (dated.None? || dated.value.1 == now) && !Dangling(s, e)))
  }

  lemma PlacementAnswered(s: RegistryState, l: Limits, e: Evidence, meta: Attestation)
    requires Places(e.payload) && meta.owner == OwnerOf(e) && meta.generation == e.header.generation
    requires IsAccepted(Decide(s, l, e, meta).disposition)
    ensures Answered(s, e, Decide(s, l, e, meta).disposition)
  {
    hide ClaimsOf, OutcomeOf, ClashAt, NewAt, OldAt, IncarnationOf, PortExists, PortCapacityReached, ObjectExists,
         Fenced, Dangling;
    SomeClaim(s, e, meta);
    DanglingPlacement(s, e);
    var writes, rings := Select(s, ClaimsOf(e), meta, Insert), Select(s, ClaimsOf(e), meta, Superseded);
    assert writes != [] ==> writes[0] in writes;
    assert rings != [] ==> rings[0] in rings;
  }

  lemma SingleAnswered(s: RegistryState, l: Limits, e: Evidence, meta: Attestation)
    requires !Places(e.payload) && meta.owner == OwnerOf(e) && meta.generation == e.header.generation
    requires IsAccepted(Decide(s, l, e, meta).disposition)
    ensures Answered(s, e, Decide(s, l, e, meta).disposition)
  {
    hide OutcomeOf, ClashAt, NewAt, OldAt, IncarnationOf, PortExists, ObjectExists, Fenced, LabelConflict, TargetOf,
         Says;
    SomeClaim(s, e, meta);
    assert ClaimsOf(e) == [ClaimsOf(e)[0]];
    forall key: SlotKey
      ensures Says(e, PortKey(key)).None?
    {
      SlotsUnspoken(e, key);
    }
  }

  /** A record that is taken is answered by its keys, its sender and its subject; a refusal names its reason. */
  lemma AnswerExactly(s: RegistryState, l: Limits, h: nat, e: Evidence, receivedAt: I64, durable: bool, live: bool)
    ensures var d := IngestRecord(s, l, h, e, receivedAt, durable, live).disposition;
            && (IsAccepted(d) ==> Answered(s, e, d))
            && (d == RefusedInvalid <==> !ValidShape(e, l))
            && (d == RefusedUnknownSource <==> ValidShape(e, l) && !KnownSession(s, e))
  {
    hide Decide, ValidShape, ApplyChange, NoteRecord, Answered;
    if ValidShape(e, l) && KnownSession(s, e) {
      var meta := MetaOf(s, e, receivedAt, live);
      NamedRefusals(s, l, e, meta);
      if IsAccepted(Decide(s, l, e, meta).disposition) {
        if Places(e.payload) { PlacementAnswered(s, l, e, meta); } else { SingleAnswered(s, l, e, meta); }
      }
    }
  }

  lemma NamedRefusals(s: RegistryState, l: Limits, e: Evidence, meta: Attestation)
    ensures Decide(s, l, e, meta).disposition !in {RefusedInvalid, RefusedUnknownSource, RefusedPersistence}
  {
    hide OutcomeOf, LabelConflict, IncarnationOf, PortExists, TargetOf, ObjectExists, Fenced, PortCapacityReached,
         Select;
  }

  /** Why a record of valid shape and known session is refused before it is persisted. */
  ghost predicate Refusals(s: RegistryState, l: Limits, e: Evidence, d: Disposition)
  {
    var full, held := exists key :: PortFull(s, l, e, key), exists x :: LabelHeld(s, e, x);
    var news, clash := exists k :: NewAt(s, e, k), exists k :: ClashAt(s, e, k);
    && (d == RefusedCapacity <==> if Places(e.payload) then full else news && !held && CatalogueFull(s, l, e))
    && (d == RefusedConflict <==> clash && !(Places(e.payload) && full))
    && (d == RefusedLabelConflict <==> !Places(e.payload) && news && held)
  }

  lemma PlacementRefused(s: RegistryState, l: Limits, e: Evidence, meta: Attestation)
    requires Places(e.payload) && meta.owner == OwnerOf(e) && meta.generation == e.header.generation
    ensures Refusals(s, l, e, Decide(s, l, e, meta).disposition)
  {
    hide ClaimsOf, OutcomeOf, ClashAt, NewAt, OldAt, PortFull, IncarnationOf, PortExists, PortCapacityReached,
         ObjectExists, Fenced, LabelHeld;
    SomeClaim(s, e, meta);
    FullExactly(s, l, e);
  }

  lemma SingleRefused(s: RegistryState, l: Limits, e: Evidence, meta: Attestation)
    requires !Places(e.payload) && meta.owner == OwnerOf(e) && meta.generation == e.header.generation
    ensures Refusals(s, l, e, Decide(s, l, e, meta).disposition)
  {
    hide OutcomeOf, ClashAt, NewAt, OldAt, IncarnationOf, PortExists, ObjectExists, Fenced, LabelConflict, LabelHeld,
         TargetOf, PortFull;
    SomeClaim(s, e, meta);
    assert ClaimsOf(e) == [ClaimsOf(e)[0]];
    if e.payload.RegisterObject? { LabelExactly(s, e); } else { NoLabel(s, e); }
  }

  /** Every refusal, by its reason; what nothing else refuses is refused only for want of persistence. */
  lemma RefusalExactly(s: RegistryState, l: Limits, h: nat, e: Evidence, receivedAt: I64, durable: bool, live: bool)
    requires ValidShape(e, l) && KnownSession(s, e)
    ensures var d := IngestRecord(s, l, h, e, receivedAt, durable, live).disposition;
            Refusals(s, l, e, d) && (d == RefusedPersistence <==>
              && !durable && IsAccepted(IngestRecord(s, l, h, e, receivedAt, true, live).disposition)
              && exists k :: NewAt(s, e, k) || OldAt(s, e, k))
  {
    hide Decide, ValidShape, ApplyChange, NoteRecord, Refusals, NewAt, OldAt;
    var meta := MetaOf(s, e, receivedAt, live);
    NamedRefusals(s, l, e, meta);
    StagedExactly(s, l, e, meta);
    if Places(e.payload) { PlacementRefused(s, l, e, meta); } else { SingleRefused(s, l, e, meta); }
    if IsAccepted(Decide(s, l, e, meta).disposition) { NotRefused(s, l, e, Decide(s, l, e, meta).disposition); }
  }

  lemma NotRefused(s: RegistryState, l: Limits, e: Evidence, d: Disposition)
    requires Refusals(s, l, e, d) && IsAccepted(d)
    ensures Refusals(s, l, e, RefusedPersistence)
  {
    hide PortFull, LabelHeld, NewAt, ClashAt, CatalogueFull;
  }
}
