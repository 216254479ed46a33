// Retirement: what retiring an object achieves, from what holds before the record.

module Retirement {
  import opened Words
  import opened Evidence
  import opened Ordering
  import opened State
  import opened Fold
  import opened Lifecycle
  import opened Ingest
  import opened Keys
  import opened Effects
  import opened Sessions
  import opened Invariants
  import opened Derive
  import opened Incarnations
  import opened Bounds
  import opened Falls
  import Reachable

  // ---- When the verdict is Retired ----

  /** Retired: the best authority says so, and did not restore the object unless it also takes it out of service. */
  lemma RetiredVerdict(s: RegistryState, x: Id)
    ensures LifecycleOf(s, x).action == Retired <==>
            && CandidateAuthorities(s, x) != {}
            && Asserted(s, x, Retired)
            && (Restored(s, x) ==> Asserted(s, x, Removed) || Asserted(s, x, Quarantined))
    ensures LifecycleOf(s, x).action == Retired ==> !LifecycleOf(s, x).conflicting
  {
    hide Asserted, Restored, CandidateAuthorities;
  }

  // ---- What one retirement achieves ----

  /** A record that writes one claim writes nothing else. */
  lemma SingleWrite(s: RegistryState, l: Limits, h: nat, e: Evidence, receivedAt: I64, durable: bool, live: bool,
                    c: Claim, d: Disposition)
    requires Heard(s, l, e, durable) && IsAccepted(d)
    requires Decide(s, l, e, MetaOf(s, e, receivedAt, live)) == Write(MetaOf(s, e, receivedAt, live), c, d)
    ensures var r := IngestRecord(s, l, h, e, receivedAt, durable, live);
            && r.disposition == d
            && r.state == WriteClaim(s, c, MetaOf(s, e, receivedAt, live), h).(sessions := r.state.sessions)
  {
    hide Decide, ValidShape, WriteClaim, NoteRecord;
    var meta := MetaOf(s, e, receivedAt, live);
    assert WriteClaims(s, [c], meta, h) == WriteClaim(s, c, meta, h);
  }

  /** The record says how the object fares. */
  predicate Sets(e: Evidence, x: Id) { e.payload.SetLifecycle? && e.payload.objectId == x }

  predicate Retires(e: Evidence, x: Id)
  {
    e.payload.SetLifecycle? && e.payload.objectId == x && e.payload.action == Retired
  }

  /** The answer of a record that counts: about a registered object, or one yet to be registered. */
  predicate Counts(d: Disposition) { d.Accepted? || d.AcceptedPendingReference? }

  /** Newer than what its owner said, by an owner that counts, of the current incarnation, and refused by nothing. */
  ghost predicate Timely(s: RegistryState, l: Limits, e: Evidence, durable: bool, x: Id)
    requires Sets(e, x)
  {
    var f := At(s, LifecycleKey(x, OwnerOf(e)));
    && Heard(s, l, e, durable) && !Fenced(s, OwnerOf(e)) && e.payload.objectIncarnation == IncarnationOf(s, x)
    && (f.Some? ==> f.value.meta.generation < e.header.generation)
  }

  /** A word on how an object fares counts if and only if it is timely. */
  lemma TimelyCounts(s: RegistryState, l: Limits, h: nat, e: Evidence, receivedAt: I64, durable: bool, live: bool,
                     x: Id)
    requires Sets(e, x)
    ensures Counts(IngestRecord(s, l, h, e, receivedAt, durable, live).disposition) <==> Timely(s, l, e, durable, x)
  {
    hide At, ValidShape, OutcomeOf, IncarnationOf, ObjectExists, ApplyChange, Fenced, NoteRecord;
    if KnownSession(s, e) {
      var c := ClaimsOf(e)[0];
      assert c.LifecycleClaim? && KeyOf(c, OwnerOf(e)) == LifecycleKey(x, OwnerOf(e));
      OutcomeByKey(s, c, MetaOf(s, e, receivedAt, live));
    }
  }

  /** A retirement that counts is against the current incarnation, by an owner that counts, and is stored. */
  lemma RetirementStored(s: RegistryState, l: Limits, h: nat, e: Evidence, receivedAt: I64, durable: bool, live: bool,
                         x: Id)
    requires Retires(e, x) && Counts(IngestRecord(s, l, h, e, receivedAt, durable, live).disposition)
    ensures Heard(s, l, e, durable) && !Fenced(s, OwnerOf(e)) && e.payload.objectIncarnation == IncarnationOf(s, x)
    ensures var s' := IngestRecord(s, l, h, e, receivedAt, durable, live).state;
            && s'.sources == s.sources && s'.reincarnations == s.reincarnations
            && s'.lifecycles == FoldIn(s.lifecycles, x, OwnerOf(e), MetaOf(s, e, receivedAt, live),
                 LifecycleValue(e.payload.objectIncarnation, Retired, e.payload.reason), h)
  {
    hide ValidShape, OutcomeOf, IncarnationOf, ObjectExists, ApplyChange, FoldIn, NoteRecord, Fenced;
    var meta := MetaOf(s, e, receivedAt, live);
    var c := ClaimsOf(e)[0];
    assert c == LifecycleClaim(x, LifecycleValue(e.payload.objectIncarnation, Retired, e.payload.reason));
    SingleWrite(s, l, h, e, receivedAt, durable, live, c, Decide(s, l, e, meta).disposition);
  }

  /** The table with one more retirement, seen as a group. */
  ghost predicate RetiredIn(g: map<Owner, Folded<LifecycleValue>>, g': map<Owner, Folded<LifecycleValue>>, o: Owner,
                            a: Authority, n: int)
  {
    && g'.Keys == g.Keys + {o} && (forall p :: p in g && p != o ==> g'[p] == g[p])
    && g'[o].meta.authority == a && g'[o].value.action == Retired && g'[o].value.objectIncarnation == n
  }

  /** What a retirement by o at authority a does to what the verdict is read from. */
  ghost predicate RetiredBetween(s: RegistryState, s': RegistryState, x: Id, o: Owner, a: Authority)
  {
    && s'.sources == s.sources && s'.reincarnations == s.reincarnations && !Fenced(s, o)
    && RetiredIn(Group(s.lifecycles, x), Group(s'.lifecycles, x), o, a, IncarnationOf(s, x))
  }

  lemma StoredBetween(s: RegistryState, l: Limits, h: nat, e: Evidence, receivedAt: I64, durable: bool, live: bool,
                      x: Id)
    requires Retires(e, x) && Counts(IngestRecord(s, l, h, e, receivedAt, durable, live).disposition)
    ensures e.header.source in s.sources
    ensures RetiredBetween(s, IngestRecord(s, l, h, e, receivedAt, durable, live).state, x, OwnerOf(e),
              s.sources[e.header.source].descriptor.authority)
  {
    hide IngestRecord, ValidShape, IncarnationOf, RingAfterWin, Fenced;
    RetirementStored(s, l, h, e, receivedAt, durable, live, x);
  }

  lemma OwnersBetween(s: RegistryState, s': RegistryState, x: Id, o: Owner, a: Authority)
    requires RetiredBetween(s, s', x, o, a)
    ensures IncarnationOf(s', x) == IncarnationOf(s, x)
    ensures LifecycleOwners(s', x) == LifecycleOwners(s, x) + {o}
    ensures ReincarnationOwners(s', x) == ReincarnationOwners(s, x)
  {
    hide IncarnationOf;
    SameIncarnation(s, s', x);
    assert forall p :: Fenced(s', p) == Fenced(s, p);
    hide Fenced;
    assert ReincarnationOwners(s', x) == ReincarnationOwners(s, x);
    var g, g' := Group(s.lifecycles, x), Group(s'.lifecycles, x);
    assert forall p :: p in g && p != o ==> p in g' && g'[p] == g[p];
  }

  lemma SameIncarnation(s: RegistryState, s': RegistryState, x: Id)
    requires s'.sources == s.sources && s'.reincarnations == s.reincarnations
    ensures IncarnationOf(s', x) == IncarnationOf(s, x)
  {
    assert LiveTargets(s', x) == LiveTargets(s, x);
  }

  /** A lifecycle claim of another owner, or a reincarnation, at a higher authority. */
  ghost predicate Outranked(s: RegistryState, x: Id, o: Owner, a: Authority)
  {
    || (exists p :: p in LifecycleOwners(s, x) && p != o && Below(a, Group(s.lifecycles, x)[p].meta.authority))
    || (exists p :: p in ReincarnationOwners(s, x) && Below(a, Group(s.reincarnations, x)[p].meta.authority))
  }

  /** The authority itself brought the object to its current incarnation. */
  ghost predicate Introduced(s: RegistryState, x: Id, a: Authority)
  {
    exists p :: p in ReincarnationOwners(s, x) && Group(s.reincarnations, x)[p].meta.authority == a
  }

  /** Another owner at the authority asserts the action. */
  ghost predicate AlsoSaid(s: RegistryState, x: Id, o: Owner, a: Authority, action: LifecycleAction)
  {
    exists p :: p in LifecycleOwners(s, x) && p != o && Group(s.lifecycles, x)[p].meta.authority == a
      && Group(s.lifecycles, x)[p].value.action == action
  }

  lemma BestBetween(s: RegistryState, s': RegistryState, x: Id, o: Owner, a: Authority)
    requires RetiredBetween(s, s', x, o, a) && !Outranked(s, x, o, a)
    ensures CandidateAuthorities(s', x) != {} && BestLifecycleAuthority(s', x) == a
  {
    hide IncarnationOf, Fenced, AuthorityRank;
    OwnersBetween(s, s', x, o, a);
    hide LifecycleOwners, ReincarnationOwners;
    assert a in AuthoritiesOf(Group(s'.lifecycles, x), LifecycleOwners(s', x));
    var top := BestLifecycleAuthority(s', x);
    assert AuthorityRank(a) <= AuthorityRank(top);
    if top in AuthoritiesOf(Group(s'.lifecycles, x), LifecycleOwners(s', x)) {
      var p :| p in LifecycleOwners(s', x) && Group(s'.lifecycles, x)[p].meta.authority == top;
      assert p == o || p in LifecycleOwners(s, x);
    } else {
      var p :| p in ReincarnationOwners(s', x) && Group(s'.reincarnations, x)[p].meta.authority == top;
    }
    AuthorityRankInjective(a, top);
  }

  lemma AssertedBetween(s: RegistryState, s': RegistryState, x: Id, o: Owner, a: Authority, action: LifecycleAction)
    requires RetiredBetween(s, s', x, o, a) && CandidateAuthorities(s', x) != {} && BestLifecycleAuthority(s', x) == a
    ensures Asserted(s', x, action) <==> action == Retired || AlsoSaid(s, x, o, a, action)
  {
    hide IncarnationOf, Fenced, CandidateAuthorities, BestLifecycleAuthority;
    OwnersBetween(s, s', x, o, a);
    hide LifecycleOwners, ReincarnationOwners;
    var g, g' := Group(s.lifecycles, x), Group(s'.lifecycles, x);
    assert g' == s'.lifecycles[x] && o in LifecycleOwners(s', x);
    assert forall p :: p in LifecycleOwners(s, x) && p != o ==> p in LifecycleOwners(s', x) && g'[p] == g[p];
    if Asserted(s', x, action) {
      var p :| p in LifecycleOwners(s', x) && g'[p].meta.authority == a && g'[p].value.action == action;
      assert p == o || p in LifecycleOwners(s, x);
    }
  }

  lemma RestoredBetween(s: RegistryState, s': RegistryState, x: Id, o: Owner, a: Authority)
    requires RetiredBetween(s, s', x, o, a) && CandidateAuthorities(s', x) != {} && BestLifecycleAuthority(s', x) == a
    ensures Restored(s', x) <==> Introduced(s, x, a)
  {
    hide IncarnationOf, Fenced, CandidateAuthorities, BestLifecycleAuthority;
    OwnersBetween(s, s', x, o, a);
    hide LifecycleOwners, ReincarnationOwners, RetiredIn;
    assert forall p :: p in ReincarnationOwners(s, x) ==> Group(s'.reincarnations, x)[p] == s'.reincarnations[x][p];
  }

  /** Nobody outranks the retirement: the verdict is read off what its own authority says. */
  lemma UnrivalledVerdict(s: RegistryState, s': RegistryState, x: Id, o: Owner, a: Authority)
    requires RetiredBetween(s, s', x, o, a) && !Outranked(s, x, o, a)
    ensures LifecycleOf(s', x) ==
            if Introduced(s, x, a) && !AlsoSaid(s, x, o, a, Removed) && !AlsoSaid(s, x, o, a, Quarantined)
            then Verdict(Present, false) else Verdict(Retired, false)
  {
    hide RetiredBetween, Outranked, Introduced, AlsoSaid, CandidateAuthorities, Asserted, Restored;
    BestBetween(s, s', x, o, a);
    RestoredBetween(s, s', x, o, a);
    AssertedBetween(s, s', x, o, a, Present);
    AssertedBetween(s, s', x, o, a, Retired);
    AssertedBetween(s, s', x, o, a, Removed);
    AssertedBetween(s, s', x, o, a, Quarantined);
  }

  /** What o said about x before, if it counts, it said at the same authority. */
  ghost predicate SpokeAt(s: RegistryState, x: Id, o: Owner, a: Authority)
  {
    o in Group(s.lifecycles, x) ==> Group(s.lifecycles, x)[o].meta.authority == a
  }

  lemma CandidatesBetween(s: RegistryState, s': RegistryState, x: Id, o: Owner, a: Authority)
    requires RetiredBetween(s, s', x, o, a) && SpokeAt(s, x, o, a)
    ensures CandidateAuthorities(s', x) == CandidateAuthorities(s, x) + {a}
  {
    hide IncarnationOf, Fenced;
    OwnersBetween(s, s', x, o, a);
    hide LifecycleOwners, ReincarnationOwners;
    var g, g' := Group(s.lifecycles, x), Group(s'.lifecycles, x);
    forall b | b in AuthoritiesOf(g, LifecycleOwners(s, x))
      ensures b in AuthoritiesOf(g', LifecycleOwners(s', x))
    {
      var p :| p in LifecycleOwners(s, x) && g[p].meta.authority == b;
      assert p in LifecycleOwners(s', x) && g'[p].meta.authority == b;
    }
    assert o in LifecycleOwners(s', x) && a in AuthoritiesOf(g', LifecycleOwners(s', x));
  }

  /** An authority that outranks a. */
  lemma Rival(s: RegistryState, x: Id, o: Owner, a: Authority) returns (b: Authority)
    requires Outranked(s, x, o, a)
    ensures b in CandidateAuthorities(s, x) && Below(a, b)
  {
    hide LifecycleOwners, ReincarnationOwners, AuthorityRank;
    if exists p :: p in LifecycleOwners(s, x) && p != o && Below(a, Group(s.lifecycles, x)[p].meta.authority) {
      var p :| p in LifecycleOwners(s, x) && p != o && Below(a, Group(s.lifecycles, x)[p].meta.authority);
      b := Group(s.lifecycles, x)[p].meta.authority;
      assert b in AuthoritiesOf(Group(s.lifecycles, x), LifecycleOwners(s, x));
    } else {
      var p :| p in ReincarnationOwners(s, x) && Below(a, Group(s.reincarnations, x)[p].meta.authority);
      b := Group(s.reincarnations, x)[p].meta.authority;
      assert b in AuthoritiesOf(Group(s.reincarnations, x), ReincarnationOwners(s, x));
    }
  }

  lemma OutrankedBest(s: RegistryState, s': RegistryState, x: Id, o: Owner, a: Authority)
    requires RetiredBetween(s, s', x, o, a) && SpokeAt(s, x, o, a) && Outranked(s, x, o, a)
    ensures CandidateAuthorities(s, x) != {} && CandidateAuthorities(s', x) != {}
    ensures BestLifecycleAuthority(s', x) == BestLifecycleAuthority(s, x) != a
  {
    hide AuthorityRank, RetiredBetween, Outranked, SpokeAt, CandidateAuthorities;
    CandidatesBetween(s, s', x, o, a);
    var b := Rival(s, x, o, a);
    var top, top' := BestLifecycleAuthority(s, x), BestLifecycleAuthority(s', x);
    assert b in CandidateAuthorities(s', x);
    assert AuthorityRank(top') <= AuthorityRank(top) <= AuthorityRank(top');
    AuthorityRankInjective(top, top');
  }

  lemma SameAssertions(s: RegistryState, s': RegistryState, x: Id, o: Owner, a: Authority, action: LifecycleAction)
    requires RetiredBetween(s, s', x, o, a) && SpokeAt(s, x, o, a)
    requires CandidateAuthorities(s, x) != {} && CandidateAuthorities(s', x) != {}
    requires BestLifecycleAuthority(s', x) == BestLifecycleAuthority(s, x) != a
    ensures Asserted(s', x, action) == Asserted(s, x, action) && Restored(s', x) == Restored(s, x)
  {
    hide IncarnationOf, Fenced, CandidateAuthorities, BestLifecycleAuthority;
    OwnersBetween(s, s', x, o, a);
    hide LifecycleOwners, ReincarnationOwners;
    var g, g' := Group(s.lifecycles, x), Group(s'.lifecycles, x);
    assert forall p :: p in LifecycleOwners(s, x) && p != o ==> p in LifecycleOwners(s', x) && g'[p] == g[p];
  }

  /** Somebody outranks the retirement: the verdict stays what it was. */
  lemma OutrankedVerdict(s: RegistryState, s': RegistryState, x: Id, o: Owner, a: Authority)
    requires RetiredBetween(s, s', x, o, a) && SpokeAt(s, x, o, a) && Outranked(s, x, o, a)
    ensures LifecycleOf(s', x) == LifecycleOf(s, x)
  {
    hide RetiredBetween, Outranked, SpokeAt, CandidateAuthorities, Asserted, Restored, Combine;
    OutrankedBest(s, s', x, o, a);
    SameAssertions(s, s', x, o, a, Present);
    SameAssertions(s, s', x, o, a, Retired);
    SameAssertions(s, s', x, o, a, Removed);
    SameAssertions(s, s', x, o, a, Quarantined);
  }

  lemma SoundSpoke(s: RegistryState, x: Id, o: Owner)
    requires RecordsOk(s) && !Fenced(s, o) && o.source in s.sources
    ensures SpokeAt(s, x, o, s.sources[o.source].descriptor.authority)
  {
    if o in Group(s.lifecycles, x) {
      assert RecordOk(s, LifecycleKey(x, o), At(s, LifecycleKey(x, o)).value.meta);
    }
  }

  /**
    * What a timely retirement achieves, from what holds before it; only such a one counts.  While another claim
    * outranks it, nothing.  Otherwise the object is retired, if and only if the retiring authority
    * did not itself bring in the current incarnation, or another of its owners holds the object
    * removed or quarantined; if not, the object stays present.
    */
  lemma RetirementTakesHold(s: RegistryState, l: Limits, h: nat, e: Evidence, receivedAt: I64, durable: bool,
                            live: bool, x: Id)
    requires RecordsOk(s) && Retires(e, x) && Timely(s, l, e, durable, x)
    ensures Counts(IngestRecord(s, l, h, e, receivedAt, durable, live).disposition) && e.header.source in s.sources
    ensures var s' := IngestRecord(s, l, h, e, receivedAt, durable, live).state;
            var o, a := OwnerOf(e), s.sources[e.header.source].descriptor.authority;
            LifecycleOf(s', x) ==
            if Outranked(s, x, o, a) then LifecycleOf(s, x)
            else if Introduced(s, x, a) && !AlsoSaid(s, x, o, a, Removed) && !AlsoSaid(s, x, o, a, Quarantined)
            then Verdict(Present, false)
            else Verdict(Retired, false)
  {
    hide IngestRecord, LifecycleOf, Outranked, Introduced, AlsoSaid, RecordsOk, RetiredBetween, Timely;
    var s' := IngestRecord(s, l, h, e, receivedAt, durable, live).state;
    TimelyCounts(s, l, h, e, receivedAt, durable, live, x);
    StoredBetween(s, l, h, e, receivedAt, durable, live, x);
    var o, a := OwnerOf(e), s.sources[e.header.source].descriptor.authority;
    if Outranked(s, x, o, a) {
      assert !Fenced(s, o) by { RetirementStored(s, l, h, e, receivedAt, durable, live, x); }
      SoundSpoke(s, x, o);
      OutrankedVerdict(s, s', x, o, a);
    } else {
      UnrivalledVerdict(s, s', x, o, a);
    }
  }

  // ---- A retirement that achieves nothing ----

  const WORN: Id := 9
  const TECHNICIAN: SourceDescriptor := SourceDescriptor(7, [], Authority(Authoritative, 1), [])

  function Spoken(generation: U64, p: Payload): Evidence
  {
    Evidence(Header(1, 7, 1, generation, 0, 0, [], EVIDENCE_SCHEMA_VERSION), p)
  }

  const FIRST_UNIT := RegisterObject(ObjectDescriptor(WORN, 0, [], [], [], [SideDescriptor(0, 0, 1)],
    NominalCapability(0, 0, 1, 0, 0, 0, false, [])))
  const SECOND_UNIT := ReincarnateObject(WORN, 1, [], [])
  const SCRAPPED := SetLifecycle(WORN, 2, Retired, [])

  /** A technician registers an object, replaces it, and then retires the replacement. */
  function ReplacedThenRetired(): seq<Event>
  {
    [Opening(TECHNICIAN, 1, 1, true), Ingesting(Spoken(1, FIRST_UNIT), 1, true),
     Ingesting(Spoken(2, SECOND_UNIT), 2, true), Ingesting(Spoken(3, SCRAPPED), 3, true)]
  }

  /** The technician's session, with nothing said yet about how the object fares. */
  ghost predicate OnDuty(s: RegistryState)
  {
    && KnownSession(s, Spoken(1, FIRST_UNIT)) && !Fenced(s, Owner(7, 1)) && s.lifecycles == map[]
    && s.sources[7].descriptor.authority == Authority(Authoritative, 1)
  }

  lemma TechnicianOpens()
    ensures var s := OpenSession(EmptyState(1, 0), ROOMY, TECHNICIAN, 1, 1, true);
            OnDuty(s) && s.objects == map[] && s.reincarnations == map[]
  {
  }

  lemma AllShaped()
    ensures ValidShape(Spoken(1, FIRST_UNIT), ROOMY) && ValidShape(Spoken(2, SECOND_UNIT), ROOMY)
    ensures ValidShape(Spoken(3, SCRAPPED), ROOMY) && TargetOf(1) == 2
  {
  }

  lemma UnitRegistered(s: RegistryState)
    requires OnDuty(s) && s.objects == map[] && s.reincarnations == map[]
    ensures var s' := IngestRecord(s, ROOMY, 8, Spoken(1, FIRST_UNIT), 1, true, true).state;
            OnDuty(s') && ObjectExists(s', WORN) && s'.reincarnations == map[]
  {
    hide IngestRecord, ValidShape, IncarnationOf;
    AllShaped();
    var e := Spoken(1, FIRST_UNIT);
    var meta := MetaOf(s, e, 1, true);
    SingleWrite(s, ROOMY, 8, e, 1, true, true, ObjectClaim(WORN, e.payload.objectDescriptor), Accepted);
    IngestKeepsCatalogue(s, ROOMY, 8, e, 1, true, true);
  }

  lemma BlankIncarnation(s: RegistryState, x: Id)
    requires s.reincarnations == map[]
    ensures IncarnationOf(s, x) == 1
  {
    assert LiveTargets(s, x) == {};
  }

  lemma UnitReplaced(s: RegistryState)
    requires OnDuty(s) && ObjectExists(s, WORN) && s.reincarnations == map[]
    ensures var s' := IngestRecord(s, ROOMY, 8, Spoken(2, SECOND_UNIT), 2, true, true).state;
            && OnDuty(s') && ObjectExists(s', WORN) && s'.reincarnations.Keys == {WORN}
            && s'.reincarnations[WORN].Keys == {Owner(7, 1)} && s'.reincarnations[WORN][Owner(7, 1)].value.target == 2
            && s'.reincarnations[WORN][Owner(7, 1)].meta.authority == Authority(Authoritative, 1)
  {
    hide IngestRecord, ValidShape, IncarnationOf;
    AllShaped();
    BlankIncarnation(s, WORN);
    var e := Spoken(2, SECOND_UNIT);
    SingleWrite(s, ROOMY, 8, e, 2, true, true, ReincarnationClaim(WORN, ReincarnationValue(1, 2, [], [])), Accepted);
    IngestKeepsCatalogue(s, ROOMY, 8, e, 2, true, true);
  }

  lemma SecondIncarnation(s: RegistryState)
    requires !Fenced(s, Owner(7, 1)) && s.reincarnations.Keys == {WORN}
    requires s.reincarnations[WORN].Keys == {Owner(7, 1)} && s.reincarnations[WORN][Owner(7, 1)].value.target == 2
    ensures IncarnationOf(s, WORN) == 2 && ReincarnationOwners(s, WORN) == {Owner(7, 1)}
  {
    assert Owner(7, 1) in Group(s.reincarnations, WORN);
    assert LiveTargets(s, WORN) == {2};
  }

  lemma ScrapCounts(s: RegistryState)
    requires OnDuty(s) && ObjectExists(s, WORN) && IncarnationOf(s, WORN) == 2
    ensures IngestRecord(s, ROOMY, 8, Spoken(3, SCRAPPED), 3, true, true).disposition == Accepted
  {
    hide ValidShape, IncarnationOf, ApplyChange, NoteRecord;
    AllShaped();
  }

  lemma RunRecords(evs: seq<Event>)
    ensures RecordsOk(Run(EmptyState(1, 0), ROOMY, 8, evs))
  {
    hide RecordsOk, Run;
    Reachable.GoodStart(1, 0, ROOMY, 8);
    Reachable.GoodRun(EmptyState(1, 0), ROOMY, 8, evs);
  }

  lemma ScrapStays(s: RegistryState)
    requires RecordsOk(s) && OnDuty(s) && ObjectExists(s, WORN) && s.reincarnations.Keys == {WORN}
    requires s.reincarnations[WORN].Keys == {Owner(7, 1)} && s.reincarnations[WORN][Owner(7, 1)].value.target == 2
    requires s.reincarnations[WORN][Owner(7, 1)].meta.authority == Authority(Authoritative, 1)
    ensures var r := IngestRecord(s, ROOMY, 8, Spoken(3, SCRAPPED), 3, true, true);
            r.disposition == Accepted && LifecycleOf(r.state, WORN) == Verdict(Present, false)
  {
    hide IngestRecord, IncarnationOf, LifecycleOf, RecordsOk, AuthorityRank, Timely;
    SecondIncarnation(s);
    ScrapCounts(s);
    TimelyCounts(s, ROOMY, 8, Spoken(3, SCRAPPED), 3, true, true, WORN);
    RetirementTakesHold(s, ROOMY, 8, Spoken(3, SCRAPPED), 3, true, true, WORN);
    var a := Authority(Authoritative, 1);
    assert LifecycleOwners(s, WORN) == {};
    hide LifecycleOwners, ReincarnationOwners;
    assert Owner(7, 1) in ReincarnationOwners(s, WORN) && Introduced(s, WORN, a);
  }

  /** The retirement of a replacement by whoever introduced it is accepted, and the object stays present. */
  lemma ReplacementNotRetired()
    ensures var t := Run(EmptyState(1, 0), ROOMY, 8, ReplacedThenRetired()[..3]);
            && IngestRecord(t, ROOMY, 8, Spoken(3, SCRAPPED), 3, true, true).disposition == Accepted
            && LifecycleOf(Run(EmptyState(1, 0), ROOMY, 8, ReplacedThenRetired()), WORN) == Verdict(Present, false)
  {
    hide IngestRecord, OpenSession, IncarnationOf, LifecycleOf, OnDuty, ObjectExists, RecordsOk;
    var s0, evs := EmptyState(1, 0), ReplacedThenRetired();
    var s1 := OpenSession(s0, ROOMY, TECHNICIAN, 1, 1, true);
    var s2 := IngestRecord(s1, ROOMY, 8, Spoken(1, FIRST_UNIT), 1, true, true).state;
    var s3 := IngestRecord(s2, ROOMY, 8, Spoken(2, SECOND_UNIT), 2, true, true).state;
    TechnicianOpens();
    UnitRegistered(s1);
    UnitReplaced(s2);
    assert evs[..3][..2] == evs[..2] && evs[..2][..1] == evs[..1] && evs[..1][..0] == [];
    assert Run(s0, ROOMY, 8, evs[..1]) == s1;
    assert Run(s0, ROOMY, 8, evs[..2]) == s2;
    assert Run(s0, ROOMY, 8, evs[..3]) == s3;
    assert RecordsOk(s3) by { RunRecords(evs[..3]); }
    ScrapStays(s3);
  }
}
