// Recovery: a registry over its store, what replaying the store rebuilds, and why a crash at
// any point loses at most the operation in flight.

module Recovery {
  import opened Words
  import opened Evidence
  import opened Ordering
  import opened State
  import opened Fold
  import opened Lifecycle
  import opened Ingest
  import opened Keys
  import opened Effects
  import opened Sessions
  import opened Invariants
  import opened Bounds
  import opened Reachable
  import opened Twins
  import opened Codec
  import opened Wire
  import opened Records
  import opened EvidenceCodec
  import opened MapCodec
  import opened StateImage
  import opened ImageSize
  import opened Images
  import opened Log
  import opened StoreFile

  // ---- Store records ----

  const SESSION_OPEN: U16 := 1
  const SESSION_CLOSE: U16 := 2
  const EVIDENCE: U16 := 3
  const STATE_SNAPSHOT: U16 := 4

  predicate FirstVersion(v: U32) { v == 1 }

  function EnvelopeC(l: Limits): Codec<(U32, (I64, Evidence))>
  {
    Pair(Refine(Word32(), FirstVersion), Pair(Signed(), EvidenceC(l)))
  }
  function OpeningC(l: Limits): Codec<(SourceDescriptor, (U64, I64))> { Pair(SourceC(l), Pair(Word64(), Signed())) }
  function ClosingC(): Codec<(Id, U64)> { Pair(Identity(), Word64()) }

  function EvidenceRecord(l: Limits, e: Evidence, receivedAt: I64): StoreRecord
  {
    StoreRecord(EVIDENCE, EnvelopeC(l).write((1, (receivedAt, e))))
  }
  function OpeningRecord(l: Limits, d: SourceDescriptor, incarnation: U64, openedAt: I64): StoreRecord
  {
    StoreRecord(SESSION_OPEN, OpeningC(l).write((d, (incarnation, openedAt))))
  }
  function ClosingRecord(o: Owner): StoreRecord
  {
    StoreRecord(SESSION_CLOSE, ClosingC().write((o.source, o.incarnation)))
  }
  ghost function ImageRecord(l: Limits, s: RegistryState): StoreRecord
  {
    StoreRecord(STATE_SNAPSHOT, StateC(l).write(s))
  }

  // ---- Replay ----

  function CloseMark(s: RegistryState, o: Owner): RegistryState
  {
    CloseSession(s, o, true)
  }

  /** What replay does with one record; nothing when the record cannot be decoded. */
  ghost function ReplayOne(l: Limits, h: nat, s: RegistryState, r: StoreRecord): Option<RegistryState>
  {
    if r.kind == STATE_SNAPSHOT then Whole(StateC(l), r.payload)
    else if r.kind == SESSION_OPEN then
      match Whole(OpeningC(l), r.payload)
      case Some(p) => if p.1.0 == 0 || p.0.id == 0 then None else Some(ApplySessionOpen(s, p.0, p.1.0, p.1.1))
      case None => None
    else if r.kind == SESSION_CLOSE then
      match Whole(ClosingC(), r.payload)
      case Some(p) => Some(CloseMark(s, Owner(p.0, p.1)))
      case None => None
    else if r.kind == EVIDENCE then
      match Whole(EnvelopeC(l), r.payload)
      case Some(p) => Some(IngestRecord(s, l, h, p.1.1, p.1.0, true, false).state)
      case None => None
    else None
  }

  ghost function Replay(l: Limits, h: nat, s: RegistryState, rs: seq<StoreRecord>): Option<RegistryState>
    decreases |rs|
  {
    if rs == [] then Some(s)
    else
      var before := Replay(l, h, s, rs[..|rs| - 1]);
      if before.None? then None else ReplayOne(l, h, before.value, rs[|rs| - 1])
  }

  lemma ReplayOnce(l: Limits, h: nat, s: RegistryState, rs: seq<StoreRecord>, r: StoreRecord)
    ensures Replay(l, h, s, rs + [r]) == (var before := Replay(l, h, s, rs); if before.None? then None
            else ReplayOne(l, h, before.value, r))
  {
    hide ReplayOne;
    assert (rs + [r])[..|rs|] == rs;
  }

  /** Registry::Open() over a store: scan, replay, forget what belonged to the old process. */
  ghost function Recover(c: Config, l: Limits, h: nat, strict: bool, fresh': RegistryState,
                         file: Bytes): Option<RegistryState>
  {
    var open := OpenFile(c, strict, file);
    if !open.Opened? then None
    else
      var r := Replay(l, h, fresh', open.records);
      if r.None? then None else Some(ClearVolatile(r.value))
  }

  // ---- Records replay as they were written ----

  lemma EnvelopeLawful(l: Limits)
    ensures Lawful(EnvelopeC(l))
  {
    hide Lawful, Word32, Signed, EvidenceC;
    ScalarsLawful();
    SignedLawful();
    EvidenceLawful(l);
    RefineLawful(Word32(), FirstVersion);
    PairLawful(Signed(), EvidenceC(l));
    PairLawful(Refine(Word32(), FirstVersion), Pair(Signed(), EvidenceC(l)));
  }

  lemma ReplayEvidence(l: Limits, h: nat, s: RegistryState, e: Evidence, receivedAt: I64)
    requires ValidShape(e, l)
    ensures ReplayOne(l, h, s, EvidenceRecord(l, e, receivedAt)) ==
            Some(IngestRecord(s, l, h, e, receivedAt, true, false).state)
  {
    hide Lawful, Word32, Signed, EvidenceC, ValidShape, IngestRecord, EnvelopeC;
    EnvelopeAccepts(l, e, receivedAt);
    EnvelopeLawful(l);
    RoundTrip(EnvelopeC(l), (1, (receivedAt, e)));
  }

  lemma EnvelopeAccepts(l: Limits, e: Evidence, receivedAt: I64)
    requires ValidShape(e, l)
    ensures Accepts(EnvelopeC(l), (1, (receivedAt, e)))
  {
    hide Total, Word32, Signed, EvidenceC, ValidShape, Pair, Refine, Accepts;
    ScalarsTotal();
    SignedLawful();
    ShapedIsCarried(l, e);
    TotalAccepts(Word32(), 1);
    TotalAccepts(Signed(), receivedAt);
    RefineAccepts(Word32(), FirstVersion, 1);
    PairAccepts(Signed(), EvidenceC(l), (receivedAt, e));
    PairAccepts(Refine(Word32(), FirstVersion), Pair(Signed(), EvidenceC(l)), (1, (receivedAt, e)));
  }

  lemma OpeningLawful(l: Limits)
    ensures Lawful(OpeningC(l)) && Lawful(ClosingC())
  {
    hide Lawful, Word64, Signed, SourceC, Identity;
    ScalarsLawful();
    SignedLawful();
    IdentityLawful();
    SourceLawful(l);
    PairLawful(Word64(), Signed());
    PairLawful(SourceC(l), Pair(Word64(), Signed()));
    PairLawful(Identity(), Word64());
  }

  lemma ReplayOpening(l: Limits, h: nat, s: RegistryState, d: SourceDescriptor, incarnation: U64, openedAt: I64)
    requires d.id != 0 && incarnation != 0 && Fits(d.name, l.maxStringBytes) && Fits(d.domain, l.maxStringBytes)
    ensures ReplayOne(l, h, s, OpeningRecord(l, d, incarnation, openedAt)) ==
            Some(ApplySessionOpen(s, d, incarnation, openedAt))
  {
    hide Lawful, Word64, Signed, SourceC, Pair, Total, ApplySessionOpen;
    OpeningLawful(l);
    ScalarsTotal();
    SignedLawful();
    SourceAccepts(l, d);
    TotalAccepts(Word64(), incarnation);
    TotalAccepts(Signed(), openedAt);
    PairAccepts(Word64(), Signed(), (incarnation, openedAt));
    PairAccepts(SourceC(l), Pair(Word64(), Signed()), (d, (incarnation, openedAt)));
    RoundTrip(OpeningC(l), (d, (incarnation, openedAt)));
  }

  lemma ReplayClosing(l: Limits, h: nat, s: RegistryState, o: Owner)
    ensures ReplayOne(l, h, s, ClosingRecord(o)) == Some(CloseMark(s, o))
  {
    hide Lawful, Word64, Identity, Pair, Total, CloseMark;
    OpeningLawful(l);
    ScalarsTotal();
    IdentityLawful();
    TotalAccepts(Identity(), o.source);
    TotalAccepts(Word64(), o.incarnation);
    PairAccepts(Identity(), Word64(), (o.source, o.incarnation));
    RoundTrip(ClosingC(), (o.source, o.incarnation));
  }

  // ---- Images ----

  /** The image a compaction writes. */
  function ImageOf(s: RegistryState): RegistryState { ClearVolatile(s) }

  lemma ClearTwice<P, K, V>(t: Table<P, K, V>)
    ensures ClearTable(ClearTable(t)) == ClearTable(t)
  {
    forall p | p in t
      ensures ClearGroup(ClearGroup(t[p])) == ClearGroup(t[p])
    {
      forall k | k in t[p]
        ensures ClearFolded(ClearFolded(t[p][k])) == ClearFolded(t[p][k])
      {
        assert ClearRing(ClearRing(t[p][k].superseded)) == ClearRing(t[p][k].superseded);
      }
    }
  }

  /** A state and its image, with any bookkeeping of the same sessions, are twins. */
  lemma ClearedTwin(s: RegistryState, bookkeeping: map<Owner, SessionRecord>)
    requires bookkeeping.Keys == s.sessions.Keys
    ensures Twin(s, ClearVolatile(s).(sessions := bookkeeping))
  {
    hide ClearTable;
    ClearTwice(s.objects);
    ClearTwice(s.endpoints);
    ClearTwice(s.subjects);
    ClearTwice(s.ports);
    ClearTwice(s.lifecycles);
    ClearTwice(s.reincarnations);
    ClearTwice(s.objectCapabilities);
    ClearTwice(s.portCapabilities);
  }

  lemma ClearSessionsKeys(sessions: map<Owner, SessionRecord>)
    ensures ClearSessions(sessions).Keys == sessions.Keys
  {
  }

  /** What the registry maintains about its memory. */
  ghost predicate Healthy(s: RegistryState, l: Limits, h: nat)
  {
    Good(s, l, h) && SourcesFit(s.sources, l) && h <= l.maxHistoryPerKey && l.maxClaimsPerPort >= 1
  }

  lemma HealthyStep(s: RegistryState, l: Limits, h: nat, ev: Event)
    requires Healthy(s, l, h)
    ensures Healthy(Step(s, l, h, ev), l, h)
  {
    hide Step, Good, SourcesFit;
    GoodStep(s, l, h, ev);
    assert CatalogueOk(s) by { GoodParts(s, l, h); }
    SourcesFitStep(s, l, h, ev);
  }

  lemma GoodParts(s: RegistryState, l: Limits, h: nat)
    requires Good(s, l, h)
    ensures CatalogueOk(s) && ShapeOk(s)
  {
  }

  lemma HealthyRestart(s: RegistryState, l: Limits, h: nat, bookkeeping: map<Owner, SessionRecord>)
    requires Healthy(s, l, h) && bookkeeping.Keys == s.sessions.Keys
    ensures Healthy(ClearVolatile(s).(sessions := bookkeeping), l, h)
  {
    hide Healthy, ClearVolatile;
    HealthyStep(s, l, h, Restarting(bookkeeping));
  }

  lemma HealthyImage(s: RegistryState, l: Limits, h: nat)
    requires Healthy(s, l, h)
    ensures Healthy(ImageOf(s), l, h)
  {
    hide Healthy, ClearTable;
    ClearSessionsKeys(s.sessions);
    HealthyRestart(s, l, h, ClearSessions(s.sessions));
    assert ImageOf(s) == ClearVolatile(s).(sessions := ClearSessions(s.sessions));
  }

  lemma HealthyContents(s: RegistryState, l: Limits, h: nat)
    requires Healthy(s, l, h)
    ensures ContentsFit(s, l)
  {
    hide Good, ContentsFit, SourcesFit;
    GoodContents(s, l, h);
  }

  /**
    * An image the encoder writes for a healthy state replays to that state exactly when its counts
    * fit, and is refused otherwise.
    */
  lemma ReplayImage(l: Limits, h: nat, any: RegistryState, s: RegistryState)
    requires Healthy(s, l, h) && |ImageRecord(l, s).payload| <= ENCODER_CEILING
    ensures ReplayOne(l, h, any, ImageRecord(l, s)) == if SizesFit(s, l) then Some(s) else None
  {
    hide Healthy, SizesFit, StateC, ContentsFit;
    HealthyContents(s, l, h);
    WrittenImage(s, l);
  }

  lemma ClearCounts<P, K, V>(t: Table<P, K, V>, max: nat, inner: nat)
    ensures CountsFit(ClearTable(t), max, inner) <==> CountsFit(t, max, inner)
  {
    var u := ClearTable(t);
    SameDomain(t, u);
    forall p | p in t
      ensures |u[p]| == |t[p]|
    {
      SameDomain(t[p], u[p]);
    }
  }

  lemma SameDomain<K, V, W>(m: map<K, V>, n: map<K, W>)
    requires m.Keys == n.Keys
    ensures |m| == |n|
  {
    assert |m| == |m.Keys| && |n| == |n.Keys|;
  }

  /** Clearing the volatile flags changes no count. */
  lemma ImageSizes(s: RegistryState, l: Limits)
    ensures SizesFit(ImageOf(s), l) <==> SizesFit(s, l)
  {
    hide ClearTable, CountsFit, Times32;
    ClearSessionsKeys(s.sessions);
    SameDomain(s.sessions, ClearSessions(s.sessions));
    ClearCounts(s.objects, l.maxObjects, l.maxSources);
    ClearCounts(s.endpoints, l.maxEndpoints, l.maxSources);
    ClearCounts(s.subjects, Times32(l.maxObjects, l.maxSidesPerObject), l.maxSources);
    ClearCounts(s.ports, Times32(l.maxEndpoints, l.maxPortsPerEndpoint), Times32(l.maxSources, l.maxPortAttachments));
    ClearCounts(s.lifecycles, l.maxObjects, l.maxSources);
    ClearCounts(s.reincarnations, l.maxObjects, l.maxSources);
    ClearCounts(s.objectCapabilities, l.maxObjects, l.maxSources);
    ClearCounts(s.portCapabilities, Times32(l.maxEndpoints, l.maxPortsPerEndpoint), l.maxSources);
  }
}
