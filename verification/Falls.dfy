// When the incarnation of an object falls: exactly which session opens and which records take it
// back, and what the one reincarnation target outside the range does.

module Falls {
  import opened Words
  import opened Evidence
  import opened Ordering
  import opened State
  import opened Fold
  import opened Lifecycle
  import opened Ingest
  import opened Keys
  import opened Effects
  import opened Sessions
  import opened Invariants
  import opened Incarnations

  /** Owner o counts, and its record takes x to incarnation n. */
  predicate Carries(s: RegistryState, x: Id, o: Owner, n: int)
  {
    var f := At(s, ReincarnationKey(x, o));
    f.Some? && f.value.value.ReincarnationClaim? && !Fenced(s, o) && f.value.value.reincarnation.target == n
  }

  lemma CarriedIsReached(s: RegistryState, x: Id, o: Owner, n: int)
    requires Carries(s, x, o, n)
    ensures IncarnationOf(s, x) >= n
  {
    hide At, IncarnationOf;
    CountedTarget(s, x, o);
  }

  lemma SomeoneCarries(s: RegistryState, x: Id) returns (o: Owner)
    requires IncarnationOf(s, x) > 1
    ensures Carries(s, x, o, IncarnationOf(s, x))
  {
    hide IncarnationOf;
    o := TargetOwner(s, x);
  }

  // ---- Opening a session ----

  /** An accepted open fences the earlier incarnations of its source, and nobody else. */
  lemma OpenFences(s: RegistryState, l: Limits, d: SourceDescriptor, incarnation: U64, openedAt: I64, durable: bool,
                   o: Owner)
    requires OpenAccepted(OpenAnswer(s, l, d, incarnation, durable))
    ensures Fenced(OpenSession(s, l, d, incarnation, openedAt, durable), o) <==>
            Fenced(s, o) || (o.source == d.id && o.incarnation < incarnation)
  {
    hide SessionAfterOpen;
    OpenEffect(s, l, d, incarnation, openedAt, durable);
  }

  lemma OpenCarries(s: RegistryState, l: Limits, d: SourceDescriptor, incarnation: U64, openedAt: I64, durable: bool,
                    x: Id, o: Owner, n: int)
    requires OpenAccepted(OpenAnswer(s, l, d, incarnation, durable))
    ensures Carries(OpenSession(s, l, d, incarnation, openedAt, durable), x, o, n) <==>
            Carries(s, x, o, n) && !(o.source == d.id && o.incarnation < incarnation)
  {
    hide At, OpenSession, OpenAnswer, Fenced;
    OpenKeepsKeys(s, l, d, incarnation, openedAt, durable, ReincarnationKey(x, o));
    OpenFences(s, l, d, incarnation, openedAt, durable, o);
  }

  /**
    * Opening a session never raises an object's incarnation, and lowers it if and only if it is
    * accepted, the incarnation is above one, and everyone who carried it is an earlier incarnation
    * of the source.
    */
  lemma OpenLowersExactly(s: RegistryState, l: Limits, d: SourceDescriptor, incarnation: U64, openedAt: I64,
                          durable: bool, x: Id)
    ensures var n, n' := IncarnationOf(s, x), IncarnationOf(OpenSession(s, l, d, incarnation, openedAt, durable), x);
            && n' <= n
            && (n' < n <==>
                  && OpenAccepted(OpenAnswer(s, l, d, incarnation, durable)) && n > 1
                  && forall o :: Carries(s, x, o, n) ==> o.source == d.id && o.incarnation < incarnation)
  {
    hide IncarnationOf, Carries, OpenSession, OpenAnswer;
    var s' := OpenSession(s, l, d, incarnation, openedAt, durable);
    if OpenAccepted(OpenAnswer(s, l, d, incarnation, durable)) {
      var n, n' := IncarnationOf(s, x), IncarnationOf(s', x);
      forall o, m
        ensures Carries(s', x, o, m) <==> Carries(s, x, o, m) && !(o.source == d.id && o.incarnation < incarnation)
      {
        OpenCarries(s, l, d, incarnation, openedAt, durable, x, o, m);
      }
      if n' > 1 {
        var o := SomeoneCarries(s', x);
        CarriedIsReached(s, x, o, n');
      }
      if o :| Carries(s, x, o, n) && !(o.source == d.id && o.incarnation < incarnation) {
        CarriedIsReached(s', x, o, n);
      }
    } else {
      RefusedOpen(s, l, d, incarnation, openedAt, durable);
    }
  }

  lemma RefusedOpen(s: RegistryState, l: Limits, d: SourceDescriptor, incarnation: U64, openedAt: I64, durable: bool)
    requires !OpenAccepted(OpenAnswer(s, l, d, incarnation, durable))
    ensures OpenSession(s, l, d, incarnation, openedAt, durable) == s
  {
  }

  // ---- A record ----

  /** The record is newer than what its owner said about the incarnation of x before. */
  predicate Newer(s: RegistryState, e: Evidence, x: Id)
  {
    var f := At(s, ReincarnationKey(x, OwnerOf(e)));
    f.Some? ==> f.value.meta.generation < e.header.generation
  }

  /** Nothing refuses the record. */
  predicate Heard(s: RegistryState, l: Limits, e: Evidence, durable: bool)
  {
    ValidShape(e, l) && KnownSession(s, e) && durable
  }

  /** Before an object is registered, its owner's newest word is taken whatever the target. */
  lemma PendingTakes(s: RegistryState, l: Limits, h: nat, e: Evidence, receivedAt: I64, durable: bool, live: bool,
                     x: Id)
    requires Reincarnates(e, x) && !ObjectExists(s, x) && Heard(s, l, e, durable) && Newer(s, e, x)
    ensures var r := IngestRecord(s, l, h, e, receivedAt, durable, live);
            var g := At(r.state, ReincarnationKey(x, OwnerOf(e)));
            && g.Some? && g.value.value.ReincarnationClaim?
            && g.value.value.reincarnation.target == TargetOf(e.payload.fromIncarnation)
            && r.disposition == if Fenced(s, OwnerOf(e)) then AcceptedFencedSource else AcceptedPendingReference
  {
    hide At, ValidShape, OutcomeOf, IncarnationOf, ObjectExists, TargetOf, RingAfterWin, RingAfterLoss, ApplyChange,
         Fenced;
    var k := ReincarnationKey(x, OwnerOf(e));
    var meta := MetaOf(s, e, receivedAt, live);
    var c := ClaimsOf(e)[0];
    assert c.ReincarnationClaim? && c.target == x && KeyOf(c, OwnerOf(e)) == k && ClaimsOf(e) == [c];
    OutcomeByKey(s, c, meta);
    IngestAt(s, l, h, e, receivedAt, durable, live, k);
  }

  /** A registered object keeps every record when the target is no higher than its incarnation. */
  lemma StaleKeeps(s: RegistryState, l: Limits, h: nat, e: Evidence, receivedAt: I64, durable: bool, live: bool, x: Id,
                   k: Key)
    requires Reincarnates(e, x) && ObjectExists(s, x) && TargetOf(e.payload.fromIncarnation) <= IncarnationOf(s, x)
    ensures var f, g := At(s, k), At(IngestRecord(s, l, h, e, receivedAt, durable, live).state, k);
            KeepsWinner(f, g) || (f.None? && g.None?)
  {
    hide At, ValidShape, OutcomeOf, IncarnationOf, ObjectExists, TargetOf, IngestRecord, Decide, RingAfterLoss;
    IngestAt(s, l, h, e, receivedAt, durable, live, k);
  }

  lemma OtherCarriesOn(s: RegistryState, l: Limits, h: nat, e: Evidence, receivedAt: I64, durable: bool, live: bool,
                       x: Id, o: Owner, n: int)
    requires o != OwnerOf(e)
    ensures Carries(IngestRecord(s, l, h, e, receivedAt, durable, live).state, x, o, n) == Carries(s, x, o, n)
  {
    hide At, IngestRecord;
    IngestKeepsCatalogue(s, l, h, e, receivedAt, durable, live);
    OtherOwnersUntouched(s, l, h, e, receivedAt, durable, live, ReincarnationKey(x, o));
  }

  /** A record that takes a carried target away is a newer one, on an object not registered, with another target. */
  lemma CarriedAway(s: RegistryState, l: Limits, h: nat, e: Evidence, receivedAt: I64, durable: bool, live: bool,
                    x: Id, n: int)
    requires Carries(s, x, OwnerOf(e), n) && n == IncarnationOf(s, x)
    requires IncarnationOf(IngestRecord(s, l, h, e, receivedAt, durable, live).state, x) < n
    ensures Reincarnates(e, x) && !ObjectExists(s, x) && Heard(s, l, e, durable) && Newer(s, e, x)
    ensures TargetOf(e.payload.fromIncarnation) < n
  {
    hide At, ValidShape, IncarnationOf, ObjectExists, TargetOf, IngestRecord, Decide, ClaimsOf;
    var o := OwnerOf(e);
    var s' := IngestRecord(s, l, h, e, receivedAt, durable, live).state;
    var k := ReincarnationKey(x, o);
    IngestKeepsCatalogue(s, l, h, e, receivedAt, durable, live);
    IngestOrigin(s, l, h, e, receivedAt, durable, live, k);
    CountedTarget(s', x, o);
    assert !KeepsWinner(At(s, k), At(s', k));
    ClaimTarget(e, x, At(s', k).value.value);
    if ObjectExists(s, x) { ReplacedHigher(s, l, h, e, receivedAt, durable, live, x, o); }
  }

  lemma ClaimTarget(e: Evidence, x: Id, c: Claim)
    requires c in ClaimsOf(e) && KeyOf(c, OwnerOf(e)) == ReincarnationKey(x, OwnerOf(e))
    ensures Reincarnates(e, x) && c.ReincarnationClaim?
    ensures c.reincarnation.target == TargetOf(e.payload.fromIncarnation)
  {
  }

  /**
    * A record lowers an object's incarnation if and only if the object is not registered, the
    * incarnation is above one and carried by the record's owner alone, and the record, newer than
    * what that owner said and refused by nothing, names a lower target.
    */
  lemma IngestLowersExactly(s: RegistryState, l: Limits, h: nat, e: Evidence, receivedAt: I64, durable: bool,
                            live: bool, x: Id)
    ensures var n, n' := IncarnationOf(s, x), IncarnationOf(IngestRecord(s, l, h, e, receivedAt, durable, live).state,
              x);
            n' < n <==>
              && Reincarnates(e, x) && !ObjectExists(s, x) && Heard(s, l, e, durable) && Newer(s, e, x)
              && TargetOf(e.payload.fromIncarnation) < n && n > 1
              && forall o :: Carries(s, x, o, n) ==> o == OwnerOf(e)
  {
    hide IncarnationOf, Carries, IngestRecord, ObjectExists, Heard, Newer, TargetOf;
    var s' := IngestRecord(s, l, h, e, receivedAt, durable, live).state;
    var n, n' := IncarnationOf(s, x), IncarnationOf(s', x);
    if n' < n {
      var q := SomeoneCarries(s, x);
      forall o | Carries(s, x, o, n)
        ensures o == OwnerOf(e)
      {
        if o != OwnerOf(e) {
          OtherCarriesOn(s, l, h, e, receivedAt, durable, live, x, o, n);
          CarriedIsReached(s', x, o, n);
        }
      }
      CarriedAway(s, l, h, e, receivedAt, durable, live, x, n);
    } else if Reincarnates(e, x) && !ObjectExists(s, x) && Heard(s, l, e, durable) && Newer(s, e, x)
      && TargetOf(e.payload.fromIncarnation) < n && n > 1 {
      var o := SomeoneCarries(s', x);
      if o == OwnerOf(e) {
        PendingTakes(s, l, h, e, receivedAt, durable, live, x);
        CarriesOne(s', x, o, n', TargetOf(e.payload.fromIncarnation));
      } else {
        OtherCarriesOn(s, l, h, e, receivedAt, durable, live, x, o, n');
        CarriedIsReached(s, x, o, n');
      }
    }
  }

  lemma CarriesOne(s: RegistryState, x: Id, o: Owner, n: int, m: int)
    requires Carries(s, x, o, n)
    requires At(s, ReincarnationKey(x, o)).value.value.reincarnation.target == m
    ensures n == m
  {
  }

  // ---- The target outside the range ----

  /**
    * The largest incarnation passes the range check and its target is zero.  On a registered object
    * such a record changes nothing; before registration it replaces what its owner said.
    */
  lemma WrappedTarget(s: RegistryState, l: Limits, h: nat, e: Evidence, receivedAt: I64, durable: bool, live: bool,
                      x: Id)
    requires Reincarnates(e, x) && e.payload.fromIncarnation == TWO_64 - 1
    ensures var s' := IngestRecord(s, l, h, e, receivedAt, durable, live).state;
            && (ObjectExists(s, x) ==>
                  && IncarnationOf(s', x) == IncarnationOf(s, x)
                  && forall k :: KeepsWinner(At(s, k), At(s', k)) || (At(s, k).None? && At(s', k).None?))
            && (!ObjectExists(s, x) && Heard(s, l, e, durable) && Newer(s, e, x) ==>
                  At(s', ReincarnationKey(x, OwnerOf(e))).Some? && !Carries(s', x, OwnerOf(e), IncarnationOf(s', x)))
  {
    hide At, IncarnationOf, IngestRecord, ObjectExists, ValidShape, Fenced;
    var s' := IngestRecord(s, l, h, e, receivedAt, durable, live).state;
    if ObjectExists(s, x) {
      forall k
        ensures KeepsWinner(At(s, k), At(s', k)) || (At(s, k).None? && At(s', k).None?)
      {
        StaleKeeps(s, l, h, e, receivedAt, durable, live, x, k);
      }
      IngestRises(s, l, h, e, receivedAt, durable, live, x);
      if IncarnationOf(s', x) > 1 {
        var o := SomeoneCarries(s', x);
        IngestKeepsCatalogue(s, l, h, e, receivedAt, durable, live);
        assert KeepsWinner(At(s, ReincarnationKey(x, o)), At(s', ReincarnationKey(x, o)));
        SameFence(s, s', o);
        CarriedIsReached(s, x, o, IncarnationOf(s', x));
      }
    } else if Heard(s, l, e, durable) && Newer(s, e, x) {
      PendingTakes(s, l, h, e, receivedAt, durable, live, x);
    }
  }

  lemma SameFence(s: RegistryState, s': RegistryState, o: Owner)
    requires s'.sources == s.sources
    ensures Fenced(s', o) == Fenced(s, o)
  {
  }

  const SPARE: Id := 9
  const CLERK: SourceDescriptor := SourceDescriptor(7, [], Authority(Declared, 1), [])
  const ROOMY: Limits := Limits(16, 16, 16, 16, 4, 4, 16, 8, 8, 64, 16, 8)

  function Renewal(generation: U64, from: U64): Evidence
  {
    Evidence(Header(1, 7, 1, generation, 0, 0, [], EVIDENCE_SCHEMA_VERSION), ReincarnateObject(SPARE, from, [], []))
  }

  /** A source reincarnates an object nobody has registered, and then wraps its own count around. */
  function Wrapped(): seq<Event>
  {
    [Opening(CLERK, 1, 1, true), Ingesting(Renewal(1, 1), 1, true), Ingesting(Renewal(2, TWO_64 - 1), 2, true)]
  }

  /** Only the clerk speaks about the spare, which nobody has registered. */
  ghost predicate ClerkOnly(s: RegistryState)
  {
    && !ObjectExists(s, SPARE) && !Fenced(s, Owner(7, 1)) && KnownSession(s, Renewal(1, 1))
    && forall o :: o != Owner(7, 1) ==> At(s, ReincarnationKey(SPARE, o)).None?
  }

  lemma ClerkOpens()
    ensures var s := OpenSession(EmptyState(1, 0), ROOMY, CLERK, 1, 1, true);
            ClerkOnly(s) && At(s, ReincarnationKey(SPARE, Owner(7, 1))).None?
  {
  }

  lemma RenewalsShaped()
    ensures ValidShape(Renewal(1, 1), ROOMY) && ValidShape(Renewal(2, TWO_64 - 1), ROOMY)
    ensures TargetOf(1) == 2 && TargetOf(TWO_64 - 1) == 0
  {
  }

  lemma StillUnregistered(s: RegistryState, l: Limits, h: nat, e: Evidence, receivedAt: I64, durable: bool, live: bool,
                          x: Id)
    requires !ObjectExists(s, x) && !e.payload.RegisterObject?
    ensures !ObjectExists(IngestRecord(s, l, h, e, receivedAt, durable, live).state, x)
  {
    hide At, IngestRecord, ObjectExists, Applied;
    var s' := IngestRecord(s, l, h, e, receivedAt, durable, live).state;
    ExistsAt(s, x);
    ExistsAt(s', x);
    if o :| At(s', ObjectKey(x, o)).Some? {
      IngestOrigin(s, l, h, e, receivedAt, durable, live, ObjectKey(x, o));
      NoObjectClaim(e, x, o, At(s', ObjectKey(x, o)).value.value);
    }
  }

  lemma NoObjectClaim(e: Evidence, x: Id, o: Owner, c: Claim)
    requires !e.payload.RegisterObject?
    ensures !(c in ClaimsOf(e) && KeyOf(c, OwnerOf(e)) == ObjectKey(x, o))
  {
  }

  lemma RenewalStep(s: RegistryState, generation: U64, from: U64, receivedAt: I64)
    requires ClerkOnly(s) && ValidShape(Renewal(generation, from), ROOMY) && Newer(s, Renewal(generation, from), SPARE)
    ensures var s' := IngestRecord(s, ROOMY, 8, Renewal(generation, from), receivedAt, true, true).state;
            && ClerkOnly(s') && IncarnationOf(s', SPARE) == (if TargetOf(from) > 1 then TargetOf(from) else 1)
            && At(s', ReincarnationKey(SPARE, Owner(7, 1))).Some?
            && (At(s, ReincarnationKey(SPARE, Owner(7, 1))).None? ==>
                  At(s', ReincarnationKey(SPARE, Owner(7, 1))).value.meta.generation == generation)
  {
    hide At, IngestRecord, ObjectExists, ValidShape, IncarnationOf, TargetOf, Applied;
    var e := Renewal(generation, from);
    var o := Owner(7, 1);
    var s' := IngestRecord(s, ROOMY, 8, e, receivedAt, true, true).state;
    PendingTakes(s, ROOMY, 8, e, receivedAt, true, true, SPARE);
    StillUnregistered(s, ROOMY, 8, e, receivedAt, true, true, SPARE);
    IngestKeepsCatalogue(s, ROOMY, 8, e, receivedAt, true, true);
    IngestOrigin(s, ROOMY, 8, e, receivedAt, true, true, ReincarnationKey(SPARE, o));
    forall p | p != o
      ensures At(s', ReincarnationKey(SPARE, p)).None?
    {
      OtherOwnersUntouched(s, ROOMY, 8, e, receivedAt, true, true, ReincarnationKey(SPARE, p));
    }
    CarriedIsReached(s', SPARE, o, TargetOf(from));
    if IncarnationOf(s', SPARE) > 1 {
      var p := SomeoneCarries(s', SPARE);
    }
  }

  /** The record outside the range is taken, and the incarnation falls from two to one. */
  lemma WrapReached()
    ensures IncarnationOf(Run(EmptyState(1, 0), ROOMY, 8, Wrapped()[..2]), SPARE) == 2
    ensures IncarnationOf(Run(EmptyState(1, 0), ROOMY, 8, Wrapped()), SPARE) == 1
  {
    hide IngestRecord, OpenSession, IncarnationOf, At, ValidShape, TargetOf, ClerkOnly;
    var s0 := EmptyState(1, 0);
    var s1 := OpenSession(s0, ROOMY, CLERK, 1, 1, true);
    var s2 := IngestRecord(s1, ROOMY, 8, Renewal(1, 1), 1, true, true).state;
    ClerkOpens();
    RenewalsShaped();
    RenewalStep(s1, 1, 1, 1);
    RenewalStep(s2, 2, TWO_64 - 1, 2);
    var evs := Wrapped();
    assert evs[..2][..1] == evs[..1] && evs[..1][..0] == [];
    assert Run(s0, ROOMY, 8, evs[..1]) == s1;
    assert Run(s0, ROOMY, 8, evs[..2]) == s2;
  }

  // ---- Why deliveries commute only within the range ----

  /** A registration that is new to its key, unlabelled and within capacity is applied. */
  lemma FreshRegistration(s: RegistryState, l: Limits, h: nat, e: Evidence, receivedAt: I64)
    requires e.payload.RegisterObject? && e.payload.objectDescriptor.physicalLabel == []
    requires ValidShape(e, l) && KnownSession(s, e)
    requires At(s, ObjectKey(e.payload.objectDescriptor.id, OwnerOf(e))).None?
    requires e.payload.objectDescriptor.id in s.objects || |s.objects| < l.maxObjects
    ensures var r := IngestRecord(s, l, h, e, receivedAt, true, true);
            && At(r.state, ObjectKey(e.payload.objectDescriptor.id, OwnerOf(e))).Some?
            && r.disposition == if Fenced(s, OwnerOf(e)) then AcceptedFencedSource else Accepted
  {
    hide ValidShape, OutcomeOf, IncarnationOf, ApplyChange;
    var k := ObjectKey(e.payload.objectDescriptor.id, OwnerOf(e));
    var meta := MetaOf(s, e, receivedAt, true);
    var c := ObjectClaim(e.payload.objectDescriptor.id, e.payload.objectDescriptor);
    assert ClaimsOf(e) == [c];
    OutcomeByKey(s, c, meta);
    IngestAt(s, l, h, e, receivedAt, true, true, k);
  }

  const SPARE_PART := RegisterObject(ObjectDescriptor(SPARE, 0, [], [], [], [SideDescriptor(0, 0, 1)],
    NominalCapability(0, 0, 1, 0, 0, 0, false, [])))

  function Listing(): Evidence { Evidence(Header(5, 7, 1, 5, 0, 0, [], EVIDENCE_SCHEMA_VERSION), SPARE_PART) }

  /** A target at or below the incarnation of a registered object goes to the ring. */
  lemma StaleAnswer(s: RegistryState, l: Limits, h: nat, e: Evidence, receivedAt: I64, live: bool, x: Id)
    requires Reincarnates(e, x) && ObjectExists(s, x) && TargetOf(e.payload.fromIncarnation) <= IncarnationOf(s, x)
    requires Heard(s, l, e, true) && Newer(s, e, x)
    ensures IngestRecord(s, l, h, e, receivedAt, true, live).disposition == AcceptedSuperseded
  {
    hide At, ValidShape, OutcomeOf, IncarnationOf, ObjectExists, TargetOf, ApplyChange, Fenced;
    var c := ClaimsOf(e)[0];
    assert c.ReincarnationClaim? && KeyOf(c, OwnerOf(e)) == ReincarnationKey(x, OwnerOf(e));
    OutcomeByKey(s, c, MetaOf(s, e, receivedAt, live));
  }

  lemma SpareListed(s: RegistryState, receivedAt: I64)
    requires ClerkOnly(s) && At(s, ObjectKey(SPARE, Owner(7, 1))).None? && |s.objects| < 16
    ensures var r := IngestRecord(s, ROOMY, 8, Listing(), receivedAt, true, true);
            && r.disposition == Accepted && ObjectExists(r.state, SPARE) && KnownSession(r.state, Renewal(1, 1))
            && At(r.state, ReincarnationKey(SPARE, Owner(7, 1))).Some?
               == At(s, ReincarnationKey(SPARE, Owner(7, 1))).Some?
  {
    hide IngestRecord, ValidShape, At, ObjectExists, Applied;
    var e := Listing();
    var s' := IngestRecord(s, ROOMY, 8, e, receivedAt, true, true).state;
    ListingShaped();
    FreshRegistration(s, ROOMY, 8, e, receivedAt);
    ExistsAt(s', SPARE);
    IngestKeepsCatalogue(s, ROOMY, 8, e, receivedAt, true, true);
    IngestOrigin(s, ROOMY, 8, e, receivedAt, true, true, ReincarnationKey(SPARE, Owner(7, 1)));
  }

  lemma ListingShaped()
    ensures ValidShape(Listing(), ROOMY)
  {
  }

  /**
    * A registration and a record with the wrapped target do not commute: taken first, the record is
    * kept; taken second, it is not.  Nobody refuses either, in either order.
    */
  lemma WrapOrderMatters()
    ensures var s := OpenSession(EmptyState(1, 0), ROOMY, CLERK, 1, 1, true);
            var e, k := Renewal(2, TWO_64 - 1), ReincarnationKey(SPARE, Owner(7, 1));
            var a := IngestRecord(s, ROOMY, 8, e, 1, true, true);
            var ab := IngestRecord(a.state, ROOMY, 8, Listing(), 2, true, true);
            var b := IngestRecord(s, ROOMY, 8, Listing(), 1, true, true);
            var ba := IngestRecord(b.state, ROOMY, 8, e, 2, true, true);
            && IsAccepted(a.disposition) && IsAccepted(ab.disposition)
            && IsAccepted(b.disposition) && IsAccepted(ba.disposition)
            && At(ab.state, k).Some? && At(ba.state, k).None?
  {
    hide IngestRecord, OpenSession, IncarnationOf, At, ValidShape, TargetOf, ObjectExists;
    var s := OpenSession(EmptyState(1, 0), ROOMY, CLERK, 1, 1, true);
    var e := Renewal(2, TWO_64 - 1);
    ClerkOpens();
    ClerkBlank();
    RenewalsShaped();
    PendingTakes(s, ROOMY, 8, e, 1, true, true, SPARE);
    RenewalStep(s, 2, TWO_64 - 1, 1);
    var a := IngestRecord(s, ROOMY, 8, e, 1, true, true).state;
    SpareStillOff(s, e);
    SpareListed(a, 2);
    SpareListed(s, 1);
    var b := IngestRecord(s, ROOMY, 8, Listing(), 1, true, true).state;
    StaleAnswer(b, ROOMY, 8, e, 2, true, SPARE);
    StaleKeeps(b, ROOMY, 8, e, 2, true, true, SPARE, ReincarnationKey(SPARE, Owner(7, 1)));
  }

  lemma ClerkBlank()
    ensures var s := OpenSession(EmptyState(1, 0), ROOMY, CLERK, 1, 1, true);
            s.objects == map[] && At(s, ObjectKey(SPARE, Owner(7, 1))).None?
  {
  }

  /** A reincarnation touches no registration. */
  lemma SpareStillOff(s: RegistryState, e: Evidence)
    requires e.payload.ReincarnateObject? && s.objects == map[]
    ensures var s' := IngestRecord(s, ROOMY, 8, e, 1, true, true).state;
            |s'.objects| < 16 && At(s', ObjectKey(SPARE, Owner(7, 1))).None?
  {
    hide IngestRecord, ValidShape, ApplyChange, Decide, FoldIn, FoldLosingIn;
    var s' := IngestRecord(s, ROOMY, 8, e, 1, true, true).state;
    IngestTables(s, ROOMY, 8, e, 1, true, true);
    if Applied(s, ROOMY, e, 1, true, true) { ReincarnationTables(s, ROOMY, e, MetaOf(s, e, 1, true)); }
    assert s'.objects == map[];
  }

  lemma ReincarnationTables(s: RegistryState, l: Limits, e: Evidence, meta: Attestation)
    requires e.payload.ReincarnateObject?
    ensures ApplyChange(s, Decide(s, l, e, meta).staged, 8).objects == s.objects
  {
    hide OutcomeOf, IncarnationOf, ObjectExists, FoldIn, FoldLosingIn;
    var c := ClaimsOf(e)[0];
    assert WriteClaims(s, [c], meta, 8) == WriteClaim(s, c, meta, 8);
    assert RingClaims(s, [c], meta, 8) == RingClaim(s, c, meta, 8);
  }
}
