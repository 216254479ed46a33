// What every step of every run keeps.

module Invariants {
  import opened Words
  import opened Evidence
  import opened Ordering
  import opened State
  import opened Fold
  import opened Ingest
  import opened Sessions
  import opened Keys
  import opened Effects

  // ---- Where a key's record comes from ----

  /** The key still holds the record it held. */
  predicate KeepsWinner(f: Option<Folded<Claim>>, g: Option<Folded<Claim>>)
  {
    f.Some? && g.Some? && g.value.meta == f.value.meta && g.value.value == f.value.value
  }

  /** After ingesting e, a key holds what it held before or the claim e makes there. */
  lemma IngestOrigin(s: RegistryState, l: Limits, h: nat, e: Evidence, receivedAt: I64, durable: bool, live: bool,
                     k: Key)
    ensures var g := At(IngestRecord(s, l, h, e, receivedAt, durable, live).state, k);
            var f := At(s, k);
            && (f.Some? ==> g.Some? && g.value.meta.generation >= f.value.meta.generation)
            && (g.Some? && !KeepsWinner(f, g) ==>
                  && Applied(s, l, e, receivedAt, durable, live)
                  && g.value.meta == MetaOf(s, e, receivedAt, live)
                  && g.value.value in ClaimsOf(e) && KeyOf(g.value.value, OwnerOf(e)) == k
                  && (f.Some? ==> f.value.meta.generation < e.header.generation))
  {
    hide IngestRecord, At, ClaimsOf, KeyOf, Decide, ValidShape, OutcomeOf, RingAfterWin, RingAfterLoss, Stale;
    IngestAt(s, l, h, e, receivedAt, durable, live, k);
    var c := Find(ClaimsOf(e), OwnerOf(e), k);
    if Applied(s, l, e, receivedAt, durable, live) && c.Some? {
      var meta := MetaOf(s, e, receivedAt, live);
      assert meta.owner == OwnerOf(e);
      OutcomeByKey(s, c.value, meta);
    }
  }

  lemma ClaimsOwned(e: Evidence, c: Claim)
    requires c in ClaimsOf(e)
    ensures KeyOwner(KeyOf(c, OwnerOf(e))) == OwnerOf(e)
  {
  }

  /** A record only touches keys of its own owner. */
  lemma OtherOwnersUntouched(s: RegistryState, l: Limits, h: nat, e: Evidence, receivedAt: I64, durable: bool,
                             live: bool, k: Key)
    requires KeyOwner(k) != OwnerOf(e)
    ensures At(IngestRecord(s, l, h, e, receivedAt, durable, live).state, k) == At(s, k)
  {
    hide IngestRecord, At, ClaimsOf, KeyOf, Decide, ValidShape;
    IngestAt(s, l, h, e, receivedAt, durable, live, k);
    var c := Find(ClaimsOf(e), OwnerOf(e), k);
    if c.Some? { ClaimsOwned(e, c.value); }
  }

  /** clear_volatile, key by key. */
  lemma ClearAt(s: RegistryState, k: Key)
    ensures At(ClearVolatile(s), k) ==
            if At(s, k).Some? then Some(ClearFolded(At(s, k).value)) else None
  {
  }

  // ---- The catalogue ----

  /** A source is described by its current incarnation. */
  predicate SourceOk(x: Id, r: SourceRecord)
  {
    && x != 0 && r.described && r.descriptor.id == x
    && r.descriptorIncarnation == r.currentIncarnation >= 1
  }

  /** No session runs ahead of its source. */
  predicate SessionOk(sources: map<Id, SourceRecord>, o: Owner)
  {
    o.source in sources && 1 <= o.incarnation <= sources[o.source].currentIncarnation
  }

  ghost predicate CatalogueOf(sources: map<Id, SourceRecord>, owners: set<Owner>)
  {
    && (forall x :: x in sources ==> SourceOk(x, sources[x]))
    && (forall o :: o in owners ==> SessionOk(sources, o))
  }

  ghost predicate CatalogueOk(s: RegistryState)
  {
    CatalogueOf(s.sources, s.sessions.Keys)
  }

  lemma CatalogueExtends(sources: map<Id, SourceRecord>, owners: set<Owner>, x: Id, r: SourceRecord)
    requires CatalogueOf(sources, owners) && SourceOk(x, r)
    requires x in sources ==> r.currentIncarnation >= sources[x].currentIncarnation
    ensures CatalogueOf(sources[x := r], owners + {Owner(x, r.currentIncarnation)})
  {
  }

  /** An accepted open touches one source and adds one session key; a refused one touches nothing. */
  lemma OpenEffect(s: RegistryState, l: Limits, d: SourceDescriptor, incarnation: U64, openedAt: I64, durable: bool)
    ensures var s' := OpenSession(s, l, d, incarnation, openedAt, durable);
            if OpenAccepted(OpenAnswer(s, l, d, incarnation, durable)) then
              && s' == s.(sources := s.sources[d.id := SourceAfterOpen(SourceBefore(s, d), d, incarnation)],
                sessions := s'.sessions)
              && s'.sessions.Keys == s.sessions.Keys + {Owner(d.id, incarnation)}
            else s' == s
  {
    hide OpenAnswer, SourceAfterOpen, SourceBefore, SessionAfterOpen;
  }

  /** What an accepted open was checked against. */
  lemma OpenChecked(s: RegistryState, l: Limits, d: SourceDescriptor, incarnation: U64, durable: bool)
    requires OpenAccepted(OpenAnswer(s, l, d, incarnation, durable))
    ensures durable && d.id != 0 && incarnation != 0
    ensures Fits(d.name, l.maxStringBytes) && Fits(d.domain, l.maxStringBytes)
    ensures d.id !in s.sources ==> |s.sources| < l.maxSources
    ensures d.id in s.sources ==> incarnation >= s.sources[d.id].currentIncarnation
    ensures d.id in s.sources && s.sources[d.id].described && incarnation == s.sources[d.id].currentIncarnation ==>
              s.sources[d.id].descriptor == d
  {
  }

  lemma SourceOpenOk(s: RegistryState, l: Limits, d: SourceDescriptor, incarnation: U64, durable: bool)
    requires CatalogueOk(s) && OpenAccepted(OpenAnswer(s, l, d, incarnation, durable))
    ensures var source := SourceAfterOpen(SourceBefore(s, d), d, incarnation);
            && SourceOk(d.id, source) && source.currentIncarnation == incarnation
            && (d.id in s.sources ==> incarnation >= s.sources[d.id].currentIncarnation)
            && (d.id in s.sources && incarnation == s.sources[d.id].currentIncarnation ==> source == s.sources[d.id])
            && source.descriptor == d
  {
    hide OpenAnswer;
    OpenChecked(s, l, d, incarnation, durable);
  }

  lemma CatalogueOpen(s: RegistryState, l: Limits, d: SourceDescriptor, incarnation: U64, openedAt: I64, durable: bool)
    requires CatalogueOk(s)
    ensures CatalogueOk(OpenSession(s, l, d, incarnation, openedAt, durable))
  {
    hide OpenAnswer, OpenSession, SourceAfterOpen, SourceBefore, CatalogueOf;
    OpenEffect(s, l, d, incarnation, openedAt, durable);
    if OpenAccepted(OpenAnswer(s, l, d, incarnation, durable)) {
      SourceOpenOk(s, l, d, incarnation, durable);
      CatalogueExtends(s.sources, s.sessions.Keys, d.id, SourceAfterOpen(SourceBefore(s, d), d, incarnation));
    }
  }

  lemma CatalogueStep(s: RegistryState, l: Limits, h: nat, ev: Event)
    requires CatalogueOk(s)
    ensures CatalogueOk(Step(s, l, h, ev))
  {
    hide IngestRecord, ClearVolatile, OpenSession;
    match ev
    case Ingesting(e, receivedAt, durable) => IngestKeepsCatalogue(s, l, h, e, receivedAt, durable, true);
    case Restarting(_) => ClearKeepsSources(s);
    case Opening(d, incarnation, openedAt, durable) => CatalogueOpen(s, l, d, incarnation, openedAt, durable);
    case Closing(_, _) =>
  }

  lemma ClearKeepsSources(s: RegistryState)
    ensures ClearVolatile(s).sources == s.sources && ClearVolatile(s).sessions.Keys == s.sessions.Keys
  {
  }

  /** Nothing known is forgotten, and no incarnation goes back. */
  ghost predicate CatalogueGrows(s: RegistryState, t: RegistryState)
  {
    && s.sessions.Keys <= t.sessions.Keys
    && (forall x :: x in s.sources ==> x in t.sources)
    && (forall x :: x in s.sources ==> t.sources[x].currentIncarnation >= s.sources[x].currentIncarnation)
  }

  lemma OpenGrowsCatalogue(s: RegistryState, l: Limits, d: SourceDescriptor, incarnation: U64, openedAt: I64,
                           durable: bool)
    ensures CatalogueGrows(s, OpenSession(s, l, d, incarnation, openedAt, durable))
  {
    hide OpenAnswer, OpenSession;
    OpenEffect(s, l, d, incarnation, openedAt, durable);
  }

  lemma StepGrowsCatalogue(s: RegistryState, l: Limits, h: nat, ev: Event)
    ensures CatalogueGrows(s, Step(s, l, h, ev))
  {
    hide IngestRecord, ClearVolatile, OpenSession;
    match ev
    case Ingesting(e, receivedAt, durable) => IngestKeepsCatalogue(s, l, h, e, receivedAt, durable, true);
    case Restarting(_) => ClearKeepsSources(s);
    case Opening(d, incarnation, openedAt, durable) => OpenGrowsCatalogue(s, l, d, incarnation, openedAt, durable);
    case Closing(_, _) =>
  }

  /** On every run an incarnation never goes back, so a fenced owner stays fenced. */
  lemma {:induction false} FencingPermanent(s: RegistryState, l: Limits, h: nat, evs: seq<Event>)
    ensures CatalogueGrows(s, Run(s, l, h, evs))
    ensures forall o :: Fenced(s, o) ==> Fenced(Run(s, l, h, evs), o)
    decreases |evs|
  {
    hide Step;
    if evs != [] {
      var before := Run(s, l, h, evs[..|evs| - 1]);
      FencingPermanent(s, l, h, evs[..|evs| - 1]);
      StepGrowsCatalogue(before, l, h, evs[|evs| - 1]);
    }
  }

  // ---- Records ----

  /** A record belongs to a known session; while its owner counts, it carries its source's authority. */
  ghost predicate RecordOk(s: RegistryState, k: Key, meta: Attestation)
  {
    && meta.owner == KeyOwner(k) && meta.owner in s.sessions
    && meta.owner.source in s.sources
    && (!Fenced(s, meta.owner) ==> meta.authority == s.sources[meta.owner.source].descriptor.authority)
  }

  ghost predicate RecordsOk(s: RegistryState)
  {
    forall k :: At(s, k).Some? ==> RecordOk(s, k, At(s, k).value.meta)
  }

  lemma RecordsStep(s: RegistryState, l: Limits, h: nat, ev: Event)
    requires CatalogueOk(s) && RecordsOk(s)
    ensures RecordsOk(Step(s, l, h, ev))
  {
    hide IngestRecord, ClearVolatile, At, ApplySessionOpen;
    var s' := Step(s, l, h, ev);
    forall k | At(s', k).Some?
      ensures RecordOk(s', k, At(s', k).value.meta)
    {
      match ev
      case Ingesting(e, receivedAt, durable) => RecordsIngest(s, l, h, e, receivedAt, durable, k);
      case Restarting(bookkeeping) =>
        ClearAt(s, k);
        ClearKeepsSources(s);
        AtIgnoresSessions(ClearVolatile(s), bookkeeping, k);
      case Opening(d, incarnation, openedAt, durable) => RecordsOpen(s, l, d, incarnation, openedAt, durable, k);
      case Closing(_, _) => AtIgnoresSessions(s, s'.sessions, k);
    }
  }

  lemma RecordsIngest(s: RegistryState, l: Limits, h: nat, e: Evidence, receivedAt: I64, durable: bool, k: Key)
    requires CatalogueOk(s) && RecordsOk(s)
    ensures var s' := IngestRecord(s, l, h, e, receivedAt, durable, true).state;
            At(s', k).Some? ==> RecordOk(s', k, At(s', k).value.meta)
  {
    hide IngestRecord, At, ClaimsOf, KeyOf;
    IngestOrigin(s, l, h, e, receivedAt, durable, true, k);
    IngestKeepsCatalogue(s, l, h, e, receivedAt, durable, true);
    var g := At(IngestRecord(s, l, h, e, receivedAt, durable, true).state, k);
    if g.Some? && !KeepsWinner(At(s, k), g) {
      ClaimsOwned(e, g.value.value);
    }
  }

  lemma RecordsOpen(s: RegistryState, l: Limits, d: SourceDescriptor, incarnation: U64, openedAt: I64, durable: bool,
                    k: Key)
    requires CatalogueOk(s) && RecordsOk(s)
    ensures var s' := OpenSession(s, l, d, incarnation, openedAt, durable);
            At(s', k).Some? ==> RecordOk(s', k, At(s', k).value.meta)
  {
    hide At, OpenAnswer, OpenSession, SourceAfterOpen, SourceBefore;
    var s' := OpenSession(s, l, d, incarnation, openedAt, durable);
    OpenEffect(s, l, d, incarnation, openedAt, durable);
    if OpenAccepted(OpenAnswer(s, l, d, incarnation, durable)) {
      SourceOpenOk(s, l, d, incarnation, durable);
      AtIgnoresCatalogue(s, s'.sources, s'.sessions, k);
    }
  }

  lemma AtIgnoresCatalogue(s: RegistryState, sources: map<Id, SourceRecord>, sessions: map<Owner, SessionRecord>,
                           k: Key)
    ensures At(s.(sources := sources, sessions := sessions), k) == At(s, k)
  {
  }
}
