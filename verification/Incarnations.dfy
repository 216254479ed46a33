// The incarnation of an object over runs: it never falls while no source is replaced, and
// it is the highest target any counted source asserted, in whatever order they arrive.

module Incarnations {
  import opened Words
  import opened Evidence
  import opened Ordering
  import opened State
  import opened Fold
  import opened Lifecycle
  import opened Ingest
  import opened Keys
  import opened Effects
  import opened Sessions
  import opened Invariants
  import opened Derive
  import opened Confluence
  import opened Congruence

  // ---- Reading the incarnation off the keys ----

  lemma CountedTarget(s: RegistryState, x: Id, o: Owner)
    requires At(s, ReincarnationKey(x, o)).Some? && !Fenced(s, o)
    ensures IncarnationOf(s, x) >= At(s, ReincarnationKey(x, o)).value.value.reincarnation.target
  {
    assert o in Group(s.reincarnations, x);
    assert Group(s.reincarnations, x)[o].value.target in LiveTargets(s, x);
  }

  /** An incarnation above one is some counted owner's target. */
  lemma TargetOwner(s: RegistryState, x: Id) returns (o: Owner)
    requires IncarnationOf(s, x) > 1
    ensures At(s, ReincarnationKey(x, o)).Some? && !Fenced(s, o)
    ensures At(s, ReincarnationKey(x, o)).value.value.reincarnation.target == IncarnationOf(s, x)
  {
    var group := Group(s.reincarnations, x);
    assert IncarnationOf(s, x) in LiveTargets(s, x);
    o :| o in group && !Fenced(s, o) && group[o].value.target == IncarnationOf(s, x);
  }

  lemma ExistsAt(s: RegistryState, x: Id)
    ensures ObjectExists(s, x) <==> exists o :: At(s, ObjectKey(x, o)).Some?
  {
    if ObjectExists(s, x) {
      EmptyGroup(s.objects[x]);
      var o :| o in s.objects[x].Keys;
      assert At(s, ObjectKey(x, o)).Some?;
    }
    if o :| At(s, ObjectKey(x, o)).Some? {
      assert o in s.objects[x].Keys;
      EmptyGroup(s.objects[x]);
    }
  }

  // ---- One record ----

  /** A registered object's reincarnation record gives way only to a higher incarnation. */
  lemma ReplacedHigher(s: RegistryState, l: Limits, h: nat, e: Evidence, receivedAt: I64, durable: bool, live: bool,
                       x: Id, o: Owner)
    requires ObjectExists(s, x) && At(s, ReincarnationKey(x, o)).Some?
    ensures var g := At(IngestRecord(s, l, h, e, receivedAt, durable, live).state, ReincarnationKey(x, o));
            g.Some? && (g.value.value == At(s, ReincarnationKey(x, o)).value.value
                        || g.value.value.reincarnation.target > IncarnationOf(s, x))
  {
    hide IngestRecord, Decide, ValidShape, IncarnationOf, ObjectExists, TargetOf, OutcomeOf, RingAfterWin,
         RingAfterLoss;
    var k := ReincarnationKey(x, o);
    IngestAt(s, l, h, e, receivedAt, durable, live, k);
    var c := Find(ClaimsOf(e), OwnerOf(e), k);
    if c.Some? {
      ReincarnationClaimed(e, x, o);
    }
  }

  lemma RegisteredStays(s: RegistryState, l: Limits, h: nat, e: Evidence, receivedAt: I64, durable: bool, live: bool,
                        x: Id)
    requires ObjectExists(s, x)
    ensures ObjectExists(IngestRecord(s, l, h, e, receivedAt, durable, live).state, x)
  {
    hide IngestRecord, At, ObjectExists, Decide, ValidShape, ClaimsOf;
    ExistsAt(s, x);
    var o :| At(s, ObjectKey(x, o)).Some?;
    IngestOrigin(s, l, h, e, receivedAt, durable, live, ObjectKey(x, o));
    ExistsAt(IngestRecord(s, l, h, e, receivedAt, durable, live).state, x);
  }

  lemma IngestRises(s: RegistryState, l: Limits, h: nat, e: Evidence, receivedAt: I64, durable: bool, live: bool, x: Id)
    requires ObjectExists(s, x)
    ensures IncarnationOf(IngestRecord(s, l, h, e, receivedAt, durable, live).state, x) >= IncarnationOf(s, x)
  {
    hide IngestRecord, At, ObjectExists, IncarnationOf;
    var s' := IngestRecord(s, l, h, e, receivedAt, durable, live).state;
    if IncarnationOf(s, x) > 1 {
      var o := TargetOwner(s, x);
      ReplacedHigher(s, l, h, e, receivedAt, durable, live, x, o);
      IngestKeepsCatalogue(s, l, h, e, receivedAt, durable, live);
      CountedTarget(s', x, o);
    }
  }

  // ---- Runs ----

  /** The event does not replace a source by a higher incarnation. */
  predicate Quiet(s: RegistryState, ev: Event)
  {
    ev.Opening? && ev.descriptor.id in s.sources ==> ev.incarnation <= s.sources[ev.descriptor.id].currentIncarnation
  }

  ghost predicate QuietRun(s: RegistryState, l: Limits, h: nat, evs: seq<Event>)
    decreases |evs|
  {
    evs == [] || (QuietRun(s, l, h, evs[..|evs| - 1]) && Quiet(Run(s, l, h, evs[..|evs| - 1]), evs[|evs| - 1]))
  }

  /** Opening a session quietly fences nobody who owns a record. */
  lemma QuietOpenFences(s: RegistryState, l: Limits, d: SourceDescriptor, incarnation: U64, openedAt: I64,
                        durable: bool, o: Owner)
    requires o.source in s.sources && (d.id in s.sources ==> incarnation <= s.sources[d.id].currentIncarnation)
    ensures Fenced(OpenSession(s, l, d, incarnation, openedAt, durable), o) == Fenced(s, o)
  {
    hide OpenAnswer, SessionAfterOpen;
    OpenEffect(s, l, d, incarnation, openedAt, durable);
  }

  lemma OpenKeepsKeys(s: RegistryState, l: Limits, d: SourceDescriptor, incarnation: U64, openedAt: I64, durable: bool,
                      k: Key)
    ensures At(OpenSession(s, l, d, incarnation, openedAt, durable), k) == At(s, k)
  {
    hide OpenSession, At;
    OpenEffect(s, l, d, incarnation, openedAt, durable);
    var s' := OpenSession(s, l, d, incarnation, openedAt, durable);
    AtIgnoresCatalogue(s, s'.sources, s'.sessions, k);
  }

  lemma QuietStep(s: RegistryState, l: Limits, h: nat, ev: Event, x: Id)
    requires RecordsOk(s) && Quiet(s, ev) && ObjectExists(s, x)
    ensures ObjectExists(Step(s, l, h, ev), x) && IncarnationOf(Step(s, l, h, ev), x) >= IncarnationOf(s, x)
  {
    hide IngestRecord, At, ObjectExists, IncarnationOf, OpenSession, ClearVolatile, RecordsOk;
    match ev
    case Ingesting(e, receivedAt, durable) =>
      RegisteredStays(s, l, h, e, receivedAt, durable, true, x);
      IngestRises(s, l, h, e, receivedAt, durable, true, x);
    case _ => SameValues(s, l, h, ev, x);
  }

  /** Other events leave every value, and every counted owner, in place. */
  lemma SameValues(s: RegistryState, l: Limits, h: nat, ev: Event, x: Id)
    requires RecordsOk(s) && Quiet(s, ev) && ObjectExists(s, x) && !ev.Ingesting?
    ensures ObjectExists(Step(s, l, h, ev), x) && IncarnationOf(Step(s, l, h, ev), x) >= IncarnationOf(s, x)
  {
    hide At, ObjectExists, IncarnationOf, OpenSession, ClearVolatile;
    var s' := Step(s, l, h, ev);
    ExistsAt(s, x);
    var r :| At(s, ObjectKey(x, r)).Some?;
    SameValueAt(s, l, h, ev, ObjectKey(x, r));
    ExistsAt(s', x);
    if IncarnationOf(s, x) > 1 {
      var o := TargetOwner(s, x);
      SameValueAt(s, l, h, ev, ReincarnationKey(x, o));
      CountedTarget(s', x, o);
    }
  }

  lemma SameValueAt(s: RegistryState, l: Limits, h: nat, ev: Event, k: Key)
    requires RecordsOk(s) && Quiet(s, ev) && !ev.Ingesting? && At(s, k).Some?
    ensures At(Step(s, l, h, ev), k).Some? && At(Step(s, l, h, ev), k).value.value == At(s, k).value.value
    ensures Fenced(Step(s, l, h, ev), KeyOwner(k)) == Fenced(s, KeyOwner(k))
  {
    hide At, ClearVolatile, OpenSession;
    assert RecordOk(s, k, At(s, k).value.meta);
    match ev
    case Opening(d, incarnation, openedAt, durable) =>
      OpenKeepsKeys(s, l, d, incarnation, openedAt, durable, k);
      QuietOpenFences(s, l, d, incarnation, openedAt, durable, KeyOwner(k));
    case Closing(o, durable) => AtIgnoresSessions(s, Step(s, l, h, ev).sessions, k);
    case Restarting(bookkeeping) =>
      ClearAt(s, k);
      ClearKeepsSources(s);
      AtIgnoresSessions(ClearVolatile(s), bookkeeping, k);
  }

  /** While no source is replaced, a registered object's incarnation never falls. */
  lemma {:induction false} IncarnationNeverFalls(s: RegistryState, l: Limits, h: nat, evs: seq<Event>, x: Id)
    requires CatalogueOk(s) && RecordsOk(s) && ObjectExists(s, x) && QuietRun(s, l, h, evs)
    ensures ObjectExists(Run(s, l, h, evs), x) && IncarnationOf(Run(s, l, h, evs), x) >= IncarnationOf(s, x)
    ensures CatalogueOk(Run(s, l, h, evs)) && RecordsOk(Run(s, l, h, evs))
    decreases |evs|
  {
    hide Step, ObjectExists, IncarnationOf, RecordsOk, CatalogueOk, Quiet;
    if evs != [] {
      var init, ev := evs[..|evs| - 1], evs[|evs| - 1];
      IncarnationNeverFalls(s, l, h, init, x);
      var t := Run(s, l, h, init);
      QuietStep(t, l, h, ev, x);
      CatalogueStep(t, l, h, ev);
      RecordsStep(t, l, h, ev);
    }
  }

  /** A claim made against a past incarnation never binds a side or a port again. */
  lemma OutdatedNeverBinds(s: RegistryState, l: Limits, h: nat, evs: seq<Event>, x: Id, policy: Policy, side: SideRef,
                           port: PortRef)
    requires CatalogueOk(s) && RecordsOk(s) && ObjectExists(s, x) && QuietRun(s, l, h, evs) && side.objectId == x
    ensures var t := Run(s, l, h, evs);
            && (forall o :: o in LiveSides(t, side, policy) ==>
              Group(t.subjects, side)[o].value.objectIncarnation >= IncarnationOf(s, x))
            && (forall key ::
              key in LiveSlots(t, policy, port) && Group(t.ports, port)[key].value.subject.objectId == x ==>
                  Group(t.ports, port)[key].value.objectIncarnation >= IncarnationOf(s, x))
  {
    hide Run, ObjectExists, IncarnationOf, RecordsOk, CatalogueOk, QuietRun, LifecycleOf, SubjectAgrees, Fenced;
    IncarnationNeverFalls(s, l, h, evs, x);
  }

  // ---- The highest accepted target ----

  /** The records that were not refused when they arrived. */
  ghost function AcceptedRecords(s: RegistryState, l: Limits, h: nat, q: seq<Delivery>): set<Evidence>
    decreases |q|
  {
    if q == [] then {}
    else
      var init, d := q[..|q| - 1], q[|q| - 1];
      AcceptedRecords(s, l, h, init) +
      if IsAccepted(IngestRecord(Deliver(s, l, h, init), l, h, d.record, d.receivedAt, true, d.live).disposition)
        then {d.record} else {}
  }

  predicate Reincarnates(e: Evidence, x: Id) { e.payload.ReincarnateObject? && e.payload.objectId == x }

  /** The targets asserted for x by owners that are not fenced. */
  ghost function CountedTargets(s: RegistryState, records: set<Evidence>, x: Id): set<int>
  {
    set e | e in records && Reincarnates(e, x) && !Fenced(s, OwnerOf(e)) :: TargetOf(e.payload.fromIncarnation)
  }

  predicate InStep(a: Evidence, b: Evidence)
    requires a.payload.ReincarnateObject? && b.payload.ReincarnateObject?
  {
    OwnerOf(a) == OwnerOf(b) && a.header.generation < b.header.generation ==>
      TargetOf(a.payload.fromIncarnation) <= TargetOf(b.payload.fromIncarnation)
  }

  /** No owner takes an object's incarnation back as its generations advance. */
  ghost predicate Climbing(records: set<Evidence>, x: Id)
  {
    forall a, b :: a in records && b in records && Reincarnates(a, x) && Reincarnates(b, x) ==> InStep(a, b)
  }

  /** Every stored reincarnation of x is one of the records. */
  ghost predicate Sourced(s: RegistryState, records: set<Evidence>, x: Id)
  {
    forall o :: At(s, ReincarnationKey(x, o)).Some? ==> exists a :: a in records && BacksKey(s, a, x, o)
  }

  predicate BacksKey(s: RegistryState, a: Evidence, x: Id, o: Owner)
  {
    var f := At(s, ReincarnationKey(x, o));
    && f.Some? && ClaimAt(a, ReincarnationKey(x, o)) == Some(f.value.value)
    && a.header.generation == f.value.meta.generation
  }

  ghost predicate Reached(s: RegistryState, records: set<Evidence>, x: Id)
  {
    forall g :: g in CountedTargets(s, records, x) ==> g <= IncarnationOf(s, x)
  }

  /** What one arrival does to a reincarnation key. */
  lemma ArrivalAt(s: RegistryState, l: Limits, h: nat, d: Delivery, x: Id, o: Owner)
    ensures var r := IngestRecord(s, l, h, d.record, d.receivedAt, true, d.live);
            var f, g := At(s, ReincarnationKey(x, o)), At(r.state, ReincarnationKey(x, o));
            || KeepsWinner(f, g)
            || (f.None? && g.None?)
            || (IsAccepted(r.disposition) && BacksKey(r.state, d.record, x, o)
                && (f.Some? ==> f.value.meta.generation < d.record.header.generation))
  {
    hide IngestRecord, At, ClaimsOf, KeyOf;
    var k := ReincarnationKey(x, o);
    IngestOrigin(s, l, h, d.record, d.receivedAt, true, d.live, k);
    if Applied(s, l, d.record, d.receivedAt, true, d.live) { AppliedWelcome(s, l, h, d); }
    var g := At(IngestRecord(s, l, h, d.record, d.receivedAt, true, d.live).state, k);
    if g.Some? && !KeepsWinner(At(s, k), g) {
      OneClaimAt(d.record, k, g.value.value);
    }
  }

  lemma OneClaimAt(e: Evidence, k: Key, c: Claim)
    requires c in ClaimsOf(e) && KeyOf(c, OwnerOf(e)) == k
    ensures ClaimAt(e, k) == Some(c)
  {
    hide ClaimsOf, KeyOf;
    OneClaimPerKey(e, c, ClaimAt(e, k).value);
  }

  lemma AppliedWelcome(s: RegistryState, l: Limits, h: nat, d: Delivery)
    requires Applied(s, l, d.record, d.receivedAt, true, d.live)
    ensures IsAccepted(IngestRecord(s, l, h, d.record, d.receivedAt, true, d.live).disposition)
  {
    hide Decide, ValidShape, ApplyChange, NoteRecord;
    AppliedAccepted(s, l, d.record, MetaOf(s, d.record, d.receivedAt, d.live));
  }

  /** An older record of an owner asks for no more than its stored one. */
  lemma BackedTarget(s: RegistryState, records: set<Evidence>, x: Id, o: Owner) returns (a: Evidence)
    requires Sourced(s, records, x) && At(s, ReincarnationKey(x, o)).Some?
    ensures a in records && Reincarnates(a, x) && OwnerOf(a) == o
    ensures a.header.generation == At(s, ReincarnationKey(x, o)).value.meta.generation
    ensures At(s, ReincarnationKey(x, o)).value.value.reincarnation.target == TargetOf(a.payload.fromIncarnation)
    ensures At(s, ReincarnationKey(x, o)).value.value.reincarnation.from == a.payload.fromIncarnation
  {
    hide At, ClaimAt;
    a :| a in records && BacksKey(s, a, x, o);
    BackedRecord(s, a, x, o);
  }

  lemma BackedRecord(s: RegistryState, a: Evidence, x: Id, o: Owner)
    requires BacksKey(s, a, x, o)
    ensures Reincarnates(a, x) && OwnerOf(a) == o
    ensures At(s, ReincarnationKey(x, o)).value.value.reincarnation.target == TargetOf(a.payload.fromIncarnation)
    ensures At(s, ReincarnationKey(x, o)).value.value.reincarnation.from == a.payload.fromIncarnation
  {
    ReincarnationClaimed(a, x, o);
  }

  lemma SourcedStep(s: RegistryState, l: Limits, h: nat, records: set<Evidence>, d: Delivery, x: Id)
    requires Sourced(s, records, x)
    ensures var r := IngestRecord(s, l, h, d.record, d.receivedAt, true, d.live);
            Sourced(r.state, records + if IsAccepted(r.disposition) then {d.record} else {}, x)
  {
    hide IngestRecord, At, ClaimAt;
    var r := IngestRecord(s, l, h, d.record, d.receivedAt, true, d.live);
    var records' := records + if IsAccepted(r.disposition) then {d.record} else {};
    forall o | At(r.state, ReincarnationKey(x, o)).Some?
      ensures exists a :: a in records' && BacksKey(r.state, a, x, o)
    {
      ArrivalAt(s, l, h, d, x, o);
      if KeepsWinner(At(s, ReincarnationKey(x, o)), At(r.state, ReincarnationKey(x, o))) {
        var a :| a in records && BacksKey(s, a, x, o);
        assert a in records' && BacksKey(r.state, a, x, o);
      } else {
        assert d.record in records' && BacksKey(r.state, d.record, x, o);
      }
    }
  }

  /** Climbing records never lower the incarnation, registered or not. */
  lemma ClimbingRises(s: RegistryState, l: Limits, h: nat, records: set<Evidence>, d: Delivery, x: Id)
    requires Sourced(s, records, x)
    requires IsAccepted(IngestRecord(s, l, h, d.record, d.receivedAt, true, d.live).disposition) ==>
            Climbing(records + {d.record}, x)
    ensures IncarnationOf(IngestRecord(s, l, h, d.record, d.receivedAt, true, d.live).state, x) >= IncarnationOf(s, x)
  {
    hide IngestRecord, At, IncarnationOf, Sourced, ClaimAt;
    var s' := IngestRecord(s, l, h, d.record, d.receivedAt, true, d.live).state;
    if IncarnationOf(s, x) > 1 {
      var o := TargetOwner(s, x);
      ArrivalAt(s, l, h, d, x, o);
      IngestKeepsCatalogue(s, l, h, d.record, d.receivedAt, true, d.live);
      var f, g := At(s, ReincarnationKey(x, o)), At(s', ReincarnationKey(x, o));
      if !KeepsWinner(f, g) {
        var a := BackedTarget(s, records, x, o);
        BackedRecord(s', d.record, x, o);
        assert InStep(a, d.record);
      }
      CountedTarget(s', x, o);
    }
  }

  /** An accepted record's target is reached. */
  lemma AcceptedReached(s: RegistryState, l: Limits, h: nat, records: set<Evidence>, d: Delivery, x: Id)
    requires Sourced(s, records, x) && Climbing(records + {d.record}, x) && Reincarnates(d.record, x)
            && !Fenced(s, OwnerOf(d.record))
    requires IsAccepted(IngestRecord(s, l, h, d.record, d.receivedAt, true, d.live).disposition)
    ensures IncarnationOf(IngestRecord(s, l, h, d.record, d.receivedAt, true, d.live).state,
            x) >= TargetOf(d.record.payload.fromIncarnation)
  {
    hide IngestRecord, At, IncarnationOf, Sourced, ObjectExists, TargetOf, OutcomeOf, RingAfterWin, RingAfterLoss;
    var e := d.record;
    var s' := IngestRecord(s, l, h, e, d.receivedAt, true, d.live).state;
    var o := OwnerOf(e);
    var k := ReincarnationKey(x, o);
    var c := ReincarnationClaim(x, ReincarnationValue(e.payload.fromIncarnation, TargetOf(e.payload.fromIncarnation),
      e.payload.serial, e.payload.reason));
    assert ClaimAt(e, k) == Some(c);
    WelcomeEffect(s, l, h, d, k);
    var meta := MetaOf(s, e, d.receivedAt, d.live);
    OutcomeByKey(s, c, meta);
    IngestKeepsCatalogue(s, l, h, e, d.receivedAt, true, d.live);
    ClimbingRises(s, l, h, records, d, x);
    if At(s', k).Some? { CountedTarget(s', x, o); }
    NoCollision(s, l, h, d, c);
    if At(s, k).Some? {
      CountedTarget(s, x, o);
      var a := BackedTarget(s, records, x, o);
      assert InStep(e, a);
    }
  }

  /** A record that collides with a stored one is refused. */
  lemma NoCollision(s: RegistryState, l: Limits, h: nat, d: Delivery, c: Claim)
    requires IsAccepted(IngestRecord(s, l, h, d.record, d.receivedAt, true, d.live).disposition)
            && c in ClaimsOf(d.record)
    ensures KnownSession(s, d.record) && OutcomeOf(s, c, MetaOf(s, d.record, d.receivedAt, d.live)) != Collision
  {
    hide Decide, ApplyChange, ValidShape, ClaimsOf, NoteRecord, OutcomeOf;
    var meta := MetaOf(s, d.record, d.receivedAt, d.live);
    if Decide(s, l, d.record, meta).staged.apply {
      DecisionCovers(s, l, d.record, meta);
      AppliedAccepted(s, l, d.record, meta);
      assert Resolves(s, d.record, Decide(s, l, d.record, meta).staged, c);
    } else {
      AllDuplicate(s, l, d.record, meta, c);
    }
  }

  lemma ReachedStep(s: RegistryState, l: Limits, h: nat, records: set<Evidence>, d: Delivery, x: Id)
    requires Sourced(s, records, x) && Reached(s, records, x)
    requires IsAccepted(IngestRecord(s, l, h, d.record, d.receivedAt, true, d.live).disposition) ==>
            Climbing(records + {d.record}, x)
    ensures var r := IngestRecord(s, l, h, d.record, d.receivedAt, true, d.live);
            Reached(r.state, records + if IsAccepted(r.disposition) then {d.record} else {}, x)
  {
    hide IngestRecord, At, IncarnationOf, Sourced, Climbing, Fenced;
    var r := IngestRecord(s, l, h, d.record, d.receivedAt, true, d.live);
    var records' := records + if IsAccepted(r.disposition) then {d.record} else {};
    IngestKeepsCatalogue(s, l, h, d.record, d.receivedAt, true, d.live);
    SameSourcesFence(s, r.state);
    ClimbingRises(s, l, h, records, d, x);
    forall g | g in CountedTargets(r.state, records', x)
      ensures g <= IncarnationOf(r.state, x)
    {
      var e :| e in records' && Reincarnates(e, x) && !Fenced(r.state, OwnerOf(e))
        && TargetOf(e.payload.fromIncarnation) == g;
      if e in records {
        assert g in CountedTargets(s, records, x);
      } else {
        AcceptedReached(s, l, h, records, d, x);
      }
    }
  }

  lemma SameSourcesFence(s: RegistryState, t: RegistryState)
    requires t.sources == s.sources
    ensures forall o :: Fenced(t, o) == Fenced(s, o)
  {
  }

  lemma SmallerClimbs(records: set<Evidence>, part: set<Evidence>, x: Id)
    requires Climbing(records, x) && part <= records
    ensures Climbing(part, x)
  {
  }

  lemma {:induction false} DeliveriesReach(s: RegistryState, l: Limits, h: nat, q: seq<Delivery>, x: Id)
    requires (forall o :: At(s, ReincarnationKey(x, o)).None?) && Climbing(AcceptedRecords(s, l, h, q), x)
    ensures var t := Deliver(s, l, h, q); var records := AcceptedRecords(s, l, h, q);
            Sourced(t, records, x) && Reached(t, records, x) && t.sources == s.sources
    decreases |q|
  {
    hide IngestRecord, At, Sourced, Reached, Climbing;
    if q == [] {
      NothingReached(s, x);
    } else {
      var init, d := q[..|q| - 1], q[|q| - 1];
      var records := AcceptedRecords(s, l, h, init);
      SmallerClimbs(AcceptedRecords(s, l, h, q), records, x);
      DeliveriesReach(s, l, h, init, x);
      var t := Deliver(s, l, h, init);
      SourcedStep(t, l, h, records, d, x);
      ReachedStep(t, l, h, records, d, x);
      IngestKeepsCatalogue(t, l, h, d.record, d.receivedAt, true, d.live);
    }
  }

  lemma NothingReached(s: RegistryState, x: Id)
    requires forall o :: At(s, ReincarnationKey(x, o)).None?
    ensures Sourced(s, {}, x) && Reached(s, {}, x)
  {
  }

  /** In any arrival order, the incarnation is the highest of one and every counted target accepted. */
  lemma IncarnationIsHighest(s: RegistryState, l: Limits, h: nat, q: seq<Delivery>, x: Id)
    requires (forall o :: At(s, ReincarnationKey(x, o)).None?) && Climbing(AcceptedRecords(s, l, h, q), x)
    ensures IncarnationOf(Deliver(s, l, h, q), x) == Maximum({1} + CountedTargets(s, AcceptedRecords(s, l, h, q), x))
  {
    hide Deliver, AcceptedRecords, At, Climbing, IncarnationOf, Sourced;
    DeliveriesReach(s, l, h, q, x);
    var t, records := Deliver(s, l, h, q), AcceptedRecords(s, l, h, q);
    SameSourcesFence(s, t);
    assert CountedTargets(t, records, x) == CountedTargets(s, records, x);
    var all := {1} + CountedTargets(s, records, x);
    if IncarnationOf(t, x) > 1 {
      var o := TargetOwner(t, x);
      var a := BackedTarget(t, records, x, o);
      assert TargetOf(a.payload.fromIncarnation) in CountedTargets(s, records, x);
    }
    assert IncarnationOf(t, x) in all;
  }
}
