// Why what is said of an object stays said: against every source that does not outrank it, and over
// whole runs, at whatever incarnation it was said.

module Stickiness {
  import opened Words
  import opened Evidence
  import opened Ordering
  import opened State
  import opened Fold
  import opened Lifecycle
  import opened Ingest
  import opened Keys
  import opened Effects
  import opened Sessions
  import opened Invariants
  import opened Derive
  import opened Incarnations
  import opened Falls
  import opened Retirement
  import opened Verdicts
  import Meaning
  import Standing

  /**
    * A word that stands: of which object, at which incarnation, by whom, at which authority, who carries
    * the incarnation when it is above one, and what is said.
    */
  datatype Holding = Holding(target: Id, incarnation: int, owner: Owner, best: Authority, carrier: Owner,
    action: LifecycleAction)

  ghost predicate Held(s: RegistryState, r: Holding)
  {
    && r.incarnation >= 1 && !Fenced(s, r.owner) && SaidBy(At(s, LifecycleKey(r.target, r.owner)), r)
    && (r.incarnation > 1 ==> Carries(s, r.target, r.carrier, r.incarnation))
    && (forall p :: !Fenced(s, p) ==> NotOpposed(At(s, LifecycleKey(r.target, p)), r))
    && (forall p :: !Fenced(s, p) ==> NotReplaced(At(s, ReincarnationKey(r.target, p)), r))
  }

  predicate SaidBy(f: Option<Folded<Claim>>, r: Holding)
  {
    f.Some? && f.value.meta.authority == r.best && f.value.value.LifecycleClaim?
    && f.value.value.lifecycle.action == r.action && f.value.value.lifecycle.objectIncarnation == r.incarnation
  }

  /** Of a lower authority; or of the same, and a retirement stands or the same is said. */
  predicate Yields(a: Authority, action: LifecycleAction, r: Holding)
  {
    Below(a, r.best) || (a == r.best && (r.action == Retired || action == r.action))
  }

  predicate NotOpposed(f: Option<Folded<Claim>>, r: Holding)
  {
    f.Some? && f.value.value.LifecycleClaim? && f.value.value.lifecycle.objectIncarnation == r.incarnation ==>
      Yields(f.value.meta.authority, f.value.value.lifecycle.action, r)
  }

  /** No higher incarnation, and the current one only from a lower authority. */
  predicate NotReplaced(f: Option<Folded<Claim>>, r: Holding)
  {
    f.Some? && f.value.value.ReincarnationClaim? ==>
      && f.value.value.reincarnation.target <= r.incarnation
      && (f.value.value.reincarnation.target == r.incarnation ==> Below(f.value.meta.authority, r.best))
  }

  lemma LifecycleAt(s: RegistryState, x: Id, o: Owner)
    ensures Has(s.lifecycles, x, o) <==> At(s, LifecycleKey(x, o)).Some?
    ensures Has(s.lifecycles, x, o) ==>
              At(s, LifecycleKey(x, o)).value.meta == s.lifecycles[x][o].meta
              && At(s, LifecycleKey(x, o)).value.value == LifecycleClaim(x, s.lifecycles[x][o].value)
  {
  }

  lemma ReincarnationAt(s: RegistryState, x: Id, o: Owner)
    ensures Has(s.reincarnations, x, o) <==> At(s, ReincarnationKey(x, o)).Some?
    ensures Has(s.reincarnations, x, o) ==>
              At(s, ReincarnationKey(x, o)).value.meta == s.reincarnations[x][o].meta
              && At(s, ReincarnationKey(x, o)).value.value == ReincarnationClaim(x, s.reincarnations[x][o].value)
  {
  }

  // ---- What is so held is the verdict ----

  lemma HeldIncarnation(s: RegistryState, r: Holding)
    requires Held(s, r)
    ensures IncarnationOf(s, r.target) == r.incarnation
  {
    hide IncarnationOf, At, AuthorityRank;
    if r.incarnation > 1 { CarriedIsReached(s, r.target, r.carrier, r.incarnation); }
    if IncarnationOf(s, r.target) > 1 {
      var p := SomeoneCarries(s, r.target);
      assert NotReplaced(At(s, ReincarnationKey(r.target, p)), r);
    }
  }

  /** Whoever else speaks yields, and whoever brought the object here is of a lower authority. */
  lemma HeldYield(s: RegistryState, r: Holding)
    requires Held(s, r)
    ensures Speaks(s, r.target, r.owner) && s.lifecycles[r.target][r.owner].meta.authority == r.best
    ensures s.lifecycles[r.target][r.owner].value.action == r.action
    ensures forall p :: Speaks(s, r.target, p) ==>
              Yields(s.lifecycles[r.target][p].meta.authority, s.lifecycles[r.target][p].value.action, r)
    ensures forall p :: Brings(s, r.target, p) ==> Below(s.reincarnations[r.target][p].meta.authority, r.best)
  {
    hide IncarnationOf, At, AuthorityRank, Yields, Fenced;
    HeldIncarnation(s, r);
    LifecycleAt(s, r.target, r.owner);
    forall p | Speaks(s, r.target, p)
      ensures Yields(s.lifecycles[r.target][p].meta.authority, s.lifecycles[r.target][p].value.action, r)
    {
      LifecycleAt(s, r.target, p);
      assert NotOpposed(At(s, LifecycleKey(r.target, p)), r);
    }
    forall p | Brings(s, r.target, p)
      ensures Below(s.reincarnations[r.target][p].meta.authority, r.best)
    {
      ReincarnationAt(s, r.target, p);
      assert NotReplaced(At(s, ReincarnationKey(r.target, p)), r);
    }
  }

  /** What is so held is the verdict, without conflict, at any incarnation. */
  lemma HeldIsVerdict(s: RegistryState, r: Holding)
    requires Held(s, r)
    ensures LifecycleOf(s, r.target) == Verdict(r.action, false)
  {
    hide LifecycleOf, AuthorityRank, IncarnationOf, Fenced;
    HeldYield(s, r);
    hide Held;
    assert Peak(s, r.target, r.best) && !Restores(s, r.target, r.best);
    if r.action == Retired {
      assert Holds(s, r.target, r.best, Retired);
      VerdictExactly(s, r.target, r.best);
    } else {
      OneWord(s, r.target, r.best, r.action);
    }
  }

  // ---- A timely word is so held ----

  /** Nobody else contradicts the word at its authority or above, or brought the object here from there. */
  ghost predicate Unopposed(s: RegistryState, r: Holding)
  {
    && (forall p :: p != r.owner && Speaks(s, r.target, p) ==>
          Yields(s.lifecycles[r.target][p].meta.authority, s.lifecycles[r.target][p].value.action, r))
    && (forall p :: Brings(s, r.target, p) ==> Below(s.reincarnations[r.target][p].meta.authority, r.best))
  }

  /** The word of the record, as it would stand. */
  ghost function WordOf(s: RegistryState, e: Evidence, q: Owner): Holding
    requires e.payload.SetLifecycle? && e.header.source in s.sources
  {
    Holding(e.payload.objectId, IncarnationOf(s, e.payload.objectId), OwnerOf(e),
            s.sources[e.header.source].descriptor.authority, q, e.payload.action)
  }

  lemma TimelyTaken(s: RegistryState, l: Limits, h: nat, e: Evidence, receivedAt: I64, durable: bool, live: bool,
                    x: Id)
    requires Sets(e, x) && Timely(s, l, e, durable, x)
    ensures IsAccepted(IngestRecord(s, l, h, e, receivedAt, durable, live).disposition)
    ensures Meaning.NewAt(s, e, LifecycleKey(x, OwnerOf(e)))
  {
    hide IngestRecord, IncarnationOf, At;
    TimelyCounts(s, l, h, e, receivedAt, durable, live, x);
  }

  /** What the keys of the object hold after a timely word: the word, and everything else as it was. */
  lemma WordStored(s: RegistryState, l: Limits, h: nat, e: Evidence, receivedAt: I64, durable: bool, live: bool, x: Id,
                   k: Key)
    requires Sets(e, x) && Timely(s, l, e, durable, x)
    ensures var s' := IngestRecord(s, l, h, e, receivedAt, durable, live).state;
            if k == LifecycleKey(x, OwnerOf(e)) then
              && At(s', k).Some? && At(s', k).value.meta == MetaOf(s, e, receivedAt, live)
              && At(s', k).value.value ==
                 LifecycleClaim(x, LifecycleValue(e.payload.objectIncarnation, e.payload.action, e.payload.reason))
            else At(s', k) == At(s, k)
  {
    hide IngestRecord, IncarnationOf, At, RingAfterWin, RingAfterLoss, Timely, ValidShape;
    assert e.header.source in s.sources by { TimelyKnown(s, l, e, durable, x); }
    TimelyTaken(s, l, h, e, receivedAt, durable, live, x);
    Meaning.RecordMeans(s, l, h, e, receivedAt, durable, live, k);
  }

  lemma TimelyKnown(s: RegistryState, l: Limits, e: Evidence, durable: bool, x: Id)
    requires Sets(e, x) && Timely(s, l, e, durable, x)
    ensures e.header.source in s.sources && !Fenced(s, OwnerOf(e))
    ensures e.payload.objectIncarnation == IncarnationOf(s, x)
  {
    hide IncarnationOf, ValidShape, At;
  }

  /**
    * A timely word that nobody of its authority or above contradicts, of an incarnation nobody of that
    * authority or above brought in, is so held at once.
    */
  lemma WordHolds(s: RegistryState, l: Limits, h: nat, e: Evidence, receivedAt: I64, durable: bool, live: bool,
                  q: Owner)
    requires e.payload.SetLifecycle? && Timely(s, l, e, durable, e.payload.objectId)
    requires Unopposed(s, WordOf(s, e, q))
    requires var r := WordOf(s, e, q); r.incarnation > 1 ==> Carries(s, r.target, q, r.incarnation)
    ensures Held(IngestRecord(s, l, h, e, receivedAt, durable, live).state, WordOf(s, e, q))
  {
    hide IngestRecord, IncarnationOf, At, AuthorityRank, Timely, Yields, Fenced;
    var x, o := e.payload.objectId, OwnerOf(e);
    TimelyKnown(s, l, e, durable, x);
    var r, s' := WordOf(s, e, q), IngestRecord(s, l, h, e, receivedAt, durable, live).state;
    IngestKeepsCatalogue(s, l, h, e, receivedAt, durable, live);
    forall p
      ensures Fenced(s', p) == Fenced(s, p)
    {
      SameFence(s, s', p);
    }
    WordStored(s, l, h, e, receivedAt, durable, live, x, LifecycleKey(x, o));
    WordStored(s, l, h, e, receivedAt, durable, live, x, ReincarnationKey(x, q));
    forall p | !Fenced(s', p)
      ensures NotOpposed(At(s', LifecycleKey(x, p)), r)
    {
      WordStored(s, l, h, e, receivedAt, durable, live, x, LifecycleKey(x, p));
      if p == o { SelfYields(r); } else { LifecycleAt(s, x, p); }
    }
    forall p | !Fenced(s', p)
      ensures NotReplaced(At(s', ReincarnationKey(x, p)), r)
    {
      WordStored(s, l, h, e, receivedAt, durable, live, x, ReincarnationKey(x, p));
      ReincarnationAt(s, x, p);
      if At(s, ReincarnationKey(x, p)).Some? { CountedTarget(s, x, p); }
    }
  }

  lemma SelfYields(r: Holding)
    ensures Yields(r.best, r.action, r)
  {
  }

  // ---- Runs ----

  /** The owner of the word says nothing else about how the object fares, though it may repeat itself. */
  predicate StandsByIt(s: RegistryState, e: Evidence, r: Holding)
  {
    OwnerOf(e) == r.owner && Sets(e, r.target) ==>
      && e.payload.action == r.action && e.payload.objectIncarnation == r.incarnation
      && (r.owner.source in s.sources ==> s.sources[r.owner.source].descriptor.authority == r.best)
  }

  /**
    * The event neither opens a new incarnation of the source of the word, or of the one that carries
    * the object's incarnation, nor replaces the object, nor speaks at a higher authority, nor contradicts
    * the word at its own, nor takes it back.
    */
  predicate Mild(s: RegistryState, l: Limits, ev: Event, r: Holding)
  {
    match ev
    case Opening(d, incarnation, _, durable) => OpenAccepted(OpenAnswer(s, l, d, incarnation, durable)) ==>
      && (d.id == r.owner.source ==> incarnation <= r.owner.incarnation)
      && (r.incarnation > 1 && d.id == r.carrier.source ==> incarnation <= r.carrier.incarnation)
    case Closing(_, _) => true
    case Restarting(_) => true
    case Ingesting(e, _, _) =>
      && StandsByIt(s, e, r) && !Reincarnates(e, r.target)
      && (e.header.source in s.sources && Sets(e, r.target) && e.payload.objectIncarnation == r.incarnation ==>
        Yields(s.sources[e.header.source].descriptor.authority, e.payload.action, r))
  }

  ghost predicate MildRun(s: RegistryState, l: Limits, h: nat, evs: seq<Event>, r: Holding)
    decreases |evs|
  {
    evs == [] || (MildRun(s, l, h, evs[..|evs| - 1], r) && Mild(Run(s, l, h, evs[..|evs| - 1]), l, evs[|evs| - 1], r))
  }

  /** The same value, at the same authority. */
  predicate SameStanding(f: Option<Folded<Claim>>, g: Option<Folded<Claim>>)
  {
    && f.Some? == g.Some?
    && (f.Some? ==> f.value.value == g.value.value && f.value.meta.authority == g.value.meta.authority)
  }

  /** Nobody who was fenced counts, those who matter still count, and no record speaks differently. */
  lemma StandingHolds(s: RegistryState, s': RegistryState, r: Holding)
    requires Held(s, r) && (forall p :: Fenced(s, p) ==> Fenced(s', p))
    requires !Fenced(s', r.owner) && (r.incarnation > 1 ==> !Fenced(s', r.carrier))
    requires SaidBy(At(s', LifecycleKey(r.target, r.owner)), r)
    requires forall p :: NotOpposed(At(s, LifecycleKey(r.target, p)), r) ==>
                           NotOpposed(At(s', LifecycleKey(r.target, p)), r)
    requires forall p :: SameStanding(At(s, ReincarnationKey(r.target, p)), At(s', ReincarnationKey(r.target, p)))
    ensures Held(s', r)
  {
    hide At, AuthorityRank, Fenced;
    assert SameStanding(At(s, ReincarnationKey(r.target, r.carrier)), At(s', ReincarnationKey(r.target, r.carrier)));
    forall p | !Fenced(s', p)
      ensures NotReplaced(At(s', ReincarnationKey(r.target, p)), r)
    {
      assert SameStanding(At(s, ReincarnationKey(r.target, p)), At(s', ReincarnationKey(r.target, p)));
    }
  }

  /** The record leaves the word standing. */
  lemma WordKept(s: RegistryState, l: Limits, h: nat, e: Evidence, receivedAt: I64, durable: bool, r: Holding)
    requires Held(s, r) && StandsByIt(s, e, r)
    ensures SaidBy(At(IngestRecord(s, l, h, e, receivedAt, durable, true).state, LifecycleKey(r.target, r.owner)), r)
  {
    hide IngestRecord, At, AuthorityRank, Decide, ValidShape;
    IngestOrigin(s, l, h, e, receivedAt, durable, true, LifecycleKey(r.target, r.owner));
  }

  lemma LifecycleSaid(e: Evidence, x: Id, p: Owner, c: Claim)
    requires c in ClaimsOf(e) && KeyOf(c, OwnerOf(e)) == LifecycleKey(x, p)
    ensures Sets(e, x) && c.LifecycleClaim? && c.lifecycle.action == e.payload.action
    ensures c.lifecycle.objectIncarnation == e.payload.objectIncarnation
  {
  }

  lemma IngestHolds(s: RegistryState, l: Limits, h: nat, e: Evidence, receivedAt: I64, durable: bool, r: Holding)
    requires Held(s, r) && Mild(s, l, Ingesting(e, receivedAt, durable), r)
    ensures Held(IngestRecord(s, l, h, e, receivedAt, durable, true).state, r)
  {
    hide IngestRecord, At, ClaimsOf, AuthorityRank, KeyOf, Decide, ValidShape, Held;
    var s' := IngestRecord(s, l, h, e, receivedAt, durable, true).state;
    IngestKeepsCatalogue(s, l, h, e, receivedAt, durable, true);
    WordKept(s, l, h, e, receivedAt, durable, r);
    forall p
      ensures NotOpposed(At(s, LifecycleKey(r.target, p)), r) ==> NotOpposed(At(s', LifecycleKey(r.target, p)), r)
    {
      var k := LifecycleKey(r.target, p);
      IngestOrigin(s, l, h, e, receivedAt, durable, true, k);
      if At(s', k).Some? && !KeepsWinner(At(s, k), At(s', k)) { LifecycleSaid(e, r.target, p, At(s', k).value.value); }
    }
    forall p
      ensures SameStanding(At(s, ReincarnationKey(r.target, p)), At(s', ReincarnationKey(r.target, p)))
    {
      IngestOrigin(s, l, h, e, receivedAt, durable, true, ReincarnationKey(r.target, p));
      NotReincarnated(e, r.target, p);
    }
    HeldCounts(s, s', r);
    StandingHolds(s, s', r);
  }

  lemma HeldCounts(s: RegistryState, s': RegistryState, r: Holding)
    requires Held(s, r) && s'.sources == s.sources
    ensures !Fenced(s', r.owner) && (r.incarnation > 1 ==> !Fenced(s', r.carrier))
    ensures forall p :: Fenced(s, p) ==> Fenced(s', p)
    ensures SaidBy(At(s, LifecycleKey(r.target, r.owner)), r)
  {
  }

  lemma NotReincarnated(e: Evidence, x: Id, o: Owner)
    requires !Reincarnates(e, x)
    ensures forall c :: c in ClaimsOf(e) ==> KeyOf(c, OwnerOf(e)) != ReincarnationKey(x, o)
  {
  }

  lemma OpenHolds(s: RegistryState, l: Limits, d: SourceDescriptor, incarnation: U64, openedAt: I64, durable: bool,
                  r: Holding)
    requires Held(s, r) && Mild(s, l, Opening(d, incarnation, openedAt, durable), r)
    ensures Held(OpenSession(s, l, d, incarnation, openedAt, durable), r)
  {
    hide At, AuthorityRank, OpenSession, OpenAnswer, Fenced;
    var s' := OpenSession(s, l, d, incarnation, openedAt, durable);
    if OpenAccepted(OpenAnswer(s, l, d, incarnation, durable)) {
      forall k
        ensures At(s', k) == At(s, k)
      {
        OpenKeepsKeys(s, l, d, incarnation, openedAt, durable, k);
      }
      forall p
        ensures Fenced(s', p) <==> Fenced(s, p) || (p.source == d.id && p.incarnation < incarnation)
      {
        OpenFences(s, l, d, incarnation, openedAt, durable, p);
      }
      assert SaidBy(At(s, LifecycleKey(r.target, r.owner)), r);
      StandingHolds(s, s', r);
    } else {
      RefusedOpen(s, l, d, incarnation, openedAt, durable);
    }
  }

  lemma ClearStands(f: Folded<Claim>)
    ensures SameStanding(Some(f), Some(ClearFolded(f)))
  {
  }

  lemma QuietStands(s: RegistryState, l: Limits, h: nat, ev: Event, k: Key)
    requires ev.Closing? || ev.Restarting?
    ensures SameStanding(At(s, k), At(Step(s, l, h, ev), k))
    ensures Step(s, l, h, ev).sources == s.sources
  {
    hide At, ClearVolatile, IngestRecord, OpenSession, ClearFolded;
    var s' := Step(s, l, h, ev);
    if ev.Closing? {
      AtIgnoresSessions(s, s'.sessions, k);
    } else {
      ClearKeepsSources(s);
      ClearAt(s, k);
      AtIgnoresSessions(ClearVolatile(s), s'.sessions, k);
      if At(s, k).Some? { ClearStands(At(s, k).value); }
    }
  }

  lemma QuietHolds(s: RegistryState, l: Limits, h: nat, ev: Event, r: Holding)
    requires Held(s, r) && (ev.Closing? || ev.Restarting?)
    ensures Held(Step(s, l, h, ev), r)
  {
    hide At, AuthorityRank, Step, Held;
    var s' := Step(s, l, h, ev);
    QuietStands(s, l, h, ev, LifecycleKey(r.target, r.owner));
    forall k
      ensures SameStanding(At(s, k), At(s', k))
    {
      QuietStands(s, l, h, ev, k);
    }
    forall p
      ensures NotOpposed(At(s, LifecycleKey(r.target, p)), r) ==> NotOpposed(At(s', LifecycleKey(r.target, p)), r)
    {
      assert SameStanding(At(s, LifecycleKey(r.target, p)), At(s', LifecycleKey(r.target, p)));
    }
    HeldCounts(s, s', r);
    StandingHolds(s, s', r);
  }

  lemma MildStep(s: RegistryState, l: Limits, h: nat, ev: Event, r: Holding)
    requires Held(s, r) && Mild(s, l, ev, r)
    ensures Held(Step(s, l, h, ev), r)
  {
    hide Held, IngestRecord, OpenSession, AuthorityRank;
    match ev
    case Opening(d, incarnation, openedAt, durable) => OpenHolds(s, l, d, incarnation, openedAt, durable, r);
    case Ingesting(e, receivedAt, durable) => IngestHolds(s, l, h, e, receivedAt, durable, r);
    case _ => QuietHolds(s, l, h, ev, r);
  }

  lemma {:induction false} MildRunHolds(s: RegistryState, l: Limits, h: nat, evs: seq<Event>, r: Holding)
    requires Held(s, r) && MildRun(s, l, h, evs, r)
    ensures Held(Run(s, l, h, evs), r)
    decreases |evs|
  {
    hide Held, Step, Mild;
    if evs != [] {
      var init, ev := evs[..|evs| - 1], evs[|evs| - 1];
      MildRunHolds(s, l, h, init, r);
      MildStep(Run(s, l, h, init), l, h, ev, r);
    }
  }

  /**
    * What is said sticks: over every run that does not contradict the word at its authority or above,
    * replace the object or take the word back, and in which neither the source of the word nor the one
    * that carries the incarnation comes back in a new incarnation, it stays the verdict.  An object so
    * said to be out of service sits in no port, and a retired one never stands in the way of a label.
    */
  lemma WordSticks(s: RegistryState, l: Limits, h: nat, evs: seq<Event>, r: Holding, policy: Policy, port: PortRef,
                   d: ObjectDescriptor)
    requires Held(s, r) && MildRun(s, l, h, evs, r)
    ensures var t := Run(s, l, h, evs);
            && LifecycleOf(t, r.target) == Verdict(r.action, false)
            && (r.action != Present ==> forall key :: key in LiveSlots(t, policy, port) ==>
                  Group(t.ports, port)[key].value.subject.objectId != r.target)
            && (r.action == Retired ==> LabelConflict(t, d) != Some(r.target))
  {
    hide Held, Run, LifecycleOf, MildRun, SubjectAgrees, HoldsLabel, IncarnationOf;
    MildRunHolds(s, l, h, evs, r);
    HeldIsVerdict(Run(s, l, h, evs), r);
  }

  /**
    * After a timely word that an object is quarantined, removed or retired, which nobody of that
    * authority or above contradicts, the object is out of service and no port has a live slot for it.
    */
  lemma OutOfService(s: RegistryState, l: Limits, h: nat, e: Evidence, receivedAt: I64, durable: bool, live: bool,
                     q: Owner, policy: Policy, port: PortRef, key: SlotKey)
    requires e.payload.SetLifecycle? && Timely(s, l, e, durable, e.payload.objectId) && e.payload.action != Present
    requires Unopposed(s, WordOf(s, e, q))
    requires var r := WordOf(s, e, q); r.incarnation > 1 ==> Carries(s, r.target, q, r.incarnation)
    ensures var s' := IngestRecord(s, l, h, e, receivedAt, durable, live).state;
            && LifecycleOf(s', e.payload.objectId) == Verdict(e.payload.action, false)
            && Excluded(s', e.payload.objectId)
            && (Standing.Live(s', policy, port, key) ==>
                  s'.ports[port][key].value.subject.objectId != e.payload.objectId)
  {
    hide IngestRecord, LifecycleOf, Held, Unopposed, Timely, IncarnationOf, Carries;
    TimelyKnown(s, l, e, durable, e.payload.objectId);
    WordHolds(s, l, h, e, receivedAt, durable, live, q);
    HeldIsVerdict(IngestRecord(s, l, h, e, receivedAt, durable, live).state, WordOf(s, e, q));
  }
}
