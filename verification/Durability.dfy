// A registry over its store: every operation, the bytes on disk after each, and what a crash
// at any byte leaves to be recovered.

module Durability {
  import opened Words
  import opened Evidence
  import opened Ordering
  import opened State
  import opened Ingest
  import opened Effects
  import opened Sessions
  import opened Invariants
  import opened Bounds
  import opened Reachable
  import opened Twins
  import opened StateImage
  import opened Log
  import opened StoreFile
  import opened Recovery

  /** The state in memory, and the records in the store. */
  datatype System = System(mem: RegistryState, log: seq<StoreRecord>)

  datatype Action =
    | IngestAction(evidence: Evidence, receivedAt: I64)
    | OpenAction(descriptor: SourceDescriptor, incarnation: U64, recordedAt: I64, openedAt: I64)
    | CloseAction(owner: Owner)
    | CompactAction

  /** The encoder and the store both take the record. */
  predicate Durable(c: Config, r: StoreRecord) { |r.payload| <= ENCODER_CEILING && Storable(r, c.max) }

  /** One operation without an I/O error: persist first, then change the memory. */
  ghost function Act(c: Config, l: Limits, h: nat, sys: System, a: Action): System
  {
    match a
    case IngestAction(e, receivedAt) =>
      var r := EvidenceRecord(l, e, receivedAt);
      var durable := Durable(c, r);
      System(IngestRecord(sys.mem, l, h, e, receivedAt, durable, true).state,
             if Applied(sys.mem, l, e, receivedAt, durable, true) then sys.log + [r] else sys.log)
    case OpenAction(d, incarnation, recordedAt, openedAt) =>
      var r := OpeningRecord(l, d, incarnation, recordedAt);
      var durable := Durable(c, r);
      System(OpenSession(sys.mem, l, d, incarnation, openedAt, durable),
             if OpenAccepted(OpenAnswer(sys.mem, l, d, incarnation, durable)) then sys.log + [r] else sys.log)
    case CloseAction(o) =>
      var r := ClosingRecord(o);
      var durable := Durable(c, r);
      System(CloseSession(sys.mem, o, durable), if o in sys.mem.sessions && durable then sys.log + [r] else sys.log)
    case CompactAction =>
      var r := ImageRecord(l, ImageOf(sys.mem));
      if Durable(c, r) then System(sys.mem, [r]) else sys
  }

  /** The action does not write an image whose counts its own reader would refuse. */
  predicate ImageReadable(l: Limits, sys: System, a: Action) { a.CompactAction? ==> SizesFit(sys.mem, l) }

  // ---- The invariant ----

  /** From whatever a process starts with, replaying the log rebuilds a twin of the memory. */
  ghost predicate Replays(l: Limits, h: nat, sys: System)
  {
    forall any: RegistryState :: ReplaysFrom(l, h, sys, any)
  }

  ghost predicate ReplaysFrom(l: Limits, h: nat, sys: System, any: RegistryState)
  {
    Follows(l, h, sys, any, sys.mem.id, sys.mem.openedAt)
  }

  /** Replaying the log from the given state rebuilds a twin of the memory, under this identity and opening time. */
  ghost predicate Follows(l: Limits, h: nat, sys: System, any: RegistryState, id: Id, openedAt: I64)
  {
    var r := Replay(l, h, any, sys.log);
    r.Some? && Twin(sys.mem, r.value) && ShapeOk(r.value) && r.value.id == id && r.value.openedAt == openedAt
  }

  ghost predicate Sturdy(c: Config, l: Limits, h: nat, sys: System)
  {
    Healthy(sys.mem, l, h) && Keeps(c, sys.log) && sys.log != [] && Replays(l, h, sys)
  }

  lemma SturdyKeeps(c: Config, l: Limits, h: nat, sys: System)
    requires Sturdy(c, l, h, sys)
    ensures Healthy(sys.mem, l, h) && Keeps(c, sys.log)
  {
    hide Healthy, Keeps, Replays;
  }

  lemma KeepsMore(c: Config, rs: seq<StoreRecord>, r: StoreRecord)
    requires Keeps(c, rs) && Storable(r, c.max) && Numbered(rs + [r])
    ensures Keeps(c, rs + [r])
  {
  }

  // ---- Each operation keeps it ----

  lemma ActKeepsName(c: Config, l: Limits, h: nat, sys: System, a: Action)
    ensures Act(c, l, h, sys, a).mem.id == sys.mem.id && Act(c, l, h, sys, a).mem.openedAt == sys.mem.openedAt
  {
    hide IngestRecord, Durable, EvidenceRecord, OpeningRecord, ClosingRecord, ImageRecord, OpenAnswer, Applied,
         SourceAfterOpen, SessionAfterOpen;
    if a.IngestAction? {
      IngestKeepsCatalogue(sys.mem, l, h, a.evidence, a.receivedAt, Durable(c, EvidenceRecord(l, a.evidence,
        a.receivedAt)), true);
    }
  }

  lemma IngestSturdy(c: Config, l: Limits, h: nat, sys: System, e: Evidence, receivedAt: I64)
    requires Sturdy(c, l, h, sys) && FIRST + |sys.log| + 1 <= TWO_64 - 1
    ensures Sturdy(c, l, h, Act(c, l, h, sys, IngestAction(e, receivedAt)))
  {
    hide Healthy, IngestRecord, Replay, Twin, ShapeOk, Applied, EvidenceRecord, Keeps, OpeningRecord, ImageRecord;
    var r := EvidenceRecord(l, e, receivedAt);
    var durable := Durable(c, r);
    var sys' := Act(c, l, h, sys, IngestAction(e, receivedAt));
    HealthyStep(sys.mem, l, h, Ingesting(e, receivedAt, durable));
    if Applied(sys.mem, l, e, receivedAt, durable, true) {
      AppliedParts(sys.mem, l, e, receivedAt, durable, true);
      KeepsMore(c, sys.log, r);
    }
    ActKeepsName(c, l, h, sys, IngestAction(e, receivedAt));
    forall any
      ensures ReplaysFrom(l, h, sys', any)
    {
      assert ReplaysFrom(l, h, sys, any);
      IngestFollows(c, l, h, sys, e, receivedAt, any, sys.mem.id, sys.mem.openedAt);
    }
  }

  lemma AppliedParts(s: RegistryState, l: Limits, e: Evidence, receivedAt: I64, durable: bool, live: bool)
    requires Applied(s, l, e, receivedAt, durable, live)
    ensures durable && ValidShape(e, l)
  {
  }

  lemma IngestFollows(c: Config, l: Limits, h: nat, sys: System, e: Evidence, receivedAt: I64, any: RegistryState,
                      id: Id, openedAt: I64)
    requires Healthy(sys.mem, l, h) && Follows(l, h, sys, any, id, openedAt)
    ensures Follows(l, h, Act(c, l, h, sys, IngestAction(e, receivedAt)), any, id, openedAt)
  {
    hide Healthy, IngestRecord, Replay, ReplayOne, Twin, ShapeOk, Applied, EvidenceRecord, Keeps;
    var r := EvidenceRecord(l, e, receivedAt);
    var durable := Durable(c, r);
    var t := Replay(l, h, any, sys.log).value;
    assert ShapeOk(sys.mem) by { HealthyShape(sys.mem, l, h); }
    if Applied(sys.mem, l, e, receivedAt, durable, true) {
      AppliedParts(sys.mem, l, e, receivedAt, durable, true);
      ReplayOnce(l, h, any, sys.log, r);
      ReplayEvidence(l, h, t, e, receivedAt);
      TwinIngest(sys.mem, t, l, h, e, receivedAt, true, true, false);
      ShapeIngest(t, l, h, e, receivedAt, true, false);
      IngestKeepsCatalogue(t, l, h, e, receivedAt, true, false);
    } else {
      UnappliedTwin(sys.mem, t, l, h, e, receivedAt, durable);
    }
  }

  lemma HealthyShape(s: RegistryState, l: Limits, h: nat)
    requires Healthy(s, l, h)
    ensures ShapeOk(s)
  {
    hide ShapeOk, CatalogueOk, RecordsOk;
  }

  /** A record that is not applied changes bookkeeping only. */
  lemma UnappliedTwin(s: RegistryState, t: RegistryState, l: Limits, h: nat, e: Evidence, receivedAt: I64,
                      durable: bool)
    requires Twin(s, t) && !Applied(s, l, e, receivedAt, durable, true)
    ensures Twin(IngestRecord(s, l, h, e, receivedAt, durable, true).state, t)
  {
    hide IngestRecord, Applied, ClearTable;
    IngestTables(s, l, h, e, receivedAt, durable, true);
    IngestKeepsCatalogue(s, l, h, e, receivedAt, durable, true);
  }

  lemma OpenSturdy(c: Config, l: Limits, h: nat, sys: System, d: SourceDescriptor, incarnation: U64, recordedAt: I64,
                   openedAt: I64)
    requires Sturdy(c, l, h, sys) && FIRST + |sys.log| + 1 <= TWO_64 - 1
    ensures Sturdy(c, l, h, Act(c, l, h, sys, OpenAction(d, incarnation, recordedAt, openedAt)))
  {
    hide Healthy, OpenSession, OpenAnswer, Replay, Twin, ShapeOk, OpeningRecord, Keeps, ImageRecord, EvidenceRecord,
         IngestRecord;
    var r := OpeningRecord(l, d, incarnation, recordedAt);
    var durable := Durable(c, r);
    var sys' := Act(c, l, h, sys, OpenAction(d, incarnation, recordedAt, openedAt));
    HealthyStep(sys.mem, l, h, Opening(d, incarnation, openedAt, durable));
    if OpenAccepted(OpenAnswer(sys.mem, l, d, incarnation, durable)) {
      OpenChecked(sys.mem, l, d, incarnation, durable);
      KeepsMore(c, sys.log, r);
    }
    ActKeepsName(c, l, h, sys, OpenAction(d, incarnation, recordedAt, openedAt));
    forall any
      ensures ReplaysFrom(l, h, sys', any)
    {
      assert ReplaysFrom(l, h, sys, any);
      OpenFollows(c, l, h, sys, d, incarnation, recordedAt, openedAt, any, sys.mem.id, sys.mem.openedAt);
    }
  }

  lemma OpenFollows(c: Config, l: Limits, h: nat, sys: System, d: SourceDescriptor, incarnation: U64, recordedAt: I64,
                    openedAt: I64, any: RegistryState, id: Id, at: I64)
    requires Follows(l, h, sys, any, id, at)
    ensures Follows(l, h, Act(c, l, h, sys, OpenAction(d, incarnation, recordedAt, openedAt)), any, id, at)
  {
    hide Healthy, OpenSession, OpenAnswer, Replay, ReplayOne, Twin, ShapeOk, OpeningRecord, Keeps, ApplySessionOpen;
    var r := OpeningRecord(l, d, incarnation, recordedAt);
    var durable := Durable(c, r);
    var t := Replay(l, h, any, sys.log).value;
    OpenEffect(sys.mem, l, d, incarnation, openedAt, durable);
    if OpenAccepted(OpenAnswer(sys.mem, l, d, incarnation, durable)) {
      OpenChecked(sys.mem, l, d, incarnation, durable);
      ReplayOnce(l, h, any, sys.log, r);
      ReplayOpening(l, h, t, d, incarnation, recordedAt);
      OpenTwin(sys.mem, t, l, d, incarnation, recordedAt, openedAt, durable);
    }
  }

  lemma OpenTwin(s: RegistryState, t: RegistryState, l: Limits, d: SourceDescriptor, incarnation: U64, recordedAt: I64,
                 openedAt: I64, durable: bool)
    requires Twin(s, t) && ShapeOk(t) && OpenAccepted(OpenAnswer(s, l, d, incarnation, durable))
    ensures Twin(OpenSession(s, l, d, incarnation, openedAt, durable), ApplySessionOpen(t, d, incarnation, recordedAt))
    ensures var u := ApplySessionOpen(t, d, incarnation, recordedAt);
            ShapeOk(u) && u.id == t.id && u.openedAt == t.openedAt
  {
    hide ClearTable, OpenAnswer, SourceAfterOpen, SessionAfterOpen, NoEmptyGroup, SlotsFiled;
  }

  lemma CloseSturdy(c: Config, l: Limits, h: nat, sys: System, o: Owner)
    requires Sturdy(c, l, h, sys) && FIRST + |sys.log| + 1 <= TWO_64 - 1
    ensures Sturdy(c, l, h, Act(c, l, h, sys, CloseAction(o)))
  {
    hide Healthy, CloseSession, Replay, Twin, ShapeOk, ClosingRecord, Keeps, EvidenceRecord, OpeningRecord, ImageRecord;
    var r := ClosingRecord(o);
    var durable := Durable(c, r);
    var sys' := Act(c, l, h, sys, CloseAction(o));
    HealthyStep(sys.mem, l, h, Closing(o, durable));
    if o in sys.mem.sessions && durable { KeepsMore(c, sys.log, r); }
    ActKeepsName(c, l, h, sys, CloseAction(o));
    forall any
      ensures ReplaysFrom(l, h, sys', any)
    {
      assert ReplaysFrom(l, h, sys, any);
      CloseFollows(c, l, h, sys, o, any, sys.mem.id, sys.mem.openedAt);
    }
  }

  lemma CloseFollows(c: Config, l: Limits, h: nat, sys: System, o: Owner, any: RegistryState, id: Id, openedAt: I64)
    requires Follows(l, h, sys, any, id, openedAt)
    ensures Follows(l, h, Act(c, l, h, sys, CloseAction(o)), any, id, openedAt)
  {
    hide Healthy, CloseSession, Replay, ReplayOne, Twin, ShapeOk, ClosingRecord, Keeps, CloseMark;
    var t := Replay(l, h, any, sys.log).value;
    ReplayOnce(l, h, any, sys.log, ClosingRecord(o));
    ReplayClosing(l, h, t, o);
    CloseTwin(sys.mem, t, o, Durable(c, ClosingRecord(o)));
  }

  lemma CloseTwin(s: RegistryState, t: RegistryState, o: Owner, durable: bool)
    requires Twin(s, t) && ShapeOk(t)
    ensures Twin(CloseSession(s, o, durable), CloseMark(t, o)) && ShapeOk(CloseMark(t, o))
    ensures CloseMark(t, o).id == t.id && CloseMark(t, o).openedAt == t.openedAt
    ensures !(o in s.sessions && durable) ==> Twin(CloseSession(s, o, durable), t)
  {
    hide ClearTable, NoEmptyGroup, SlotsFiled;
  }

  lemma CompactSturdy(c: Config, l: Limits, h: nat, sys: System)
    requires Healthy(sys.mem, l, h) && Keeps(c, sys.log) && SizesFit(sys.mem, l)
    requires Durable(c, ImageRecord(l, ImageOf(sys.mem))) || Sturdy(c, l, h, sys)
    ensures Sturdy(c, l, h, Act(c, l, h, sys, CompactAction))
  {
    hide Healthy, Replay, ReplayOne, Twin, ShapeOk, ImageRecord, SizesFit, ImageOf;
    var s := ImageOf(sys.mem);
    var r := ImageRecord(l, s);
    var sys' := Act(c, l, h, sys, CompactAction);
    if Durable(c, r) {
      forall any
        ensures ReplaysFrom(l, h, sys', any)
      {
        ImageReplays(l, h, any, sys.mem);
      }
    }
  }

  lemma ImageReplays(l: Limits, h: nat, any: RegistryState, mem: RegistryState)
    requires Healthy(mem, l, h) && SizesFit(mem, l) && |ImageRecord(l, ImageOf(mem)).payload| <= ENCODER_CEILING
    ensures ReplaysFrom(l, h, System(mem, [ImageRecord(l, ImageOf(mem))]), any)
  {
    hide Healthy, ReplayOne, Twin, ShapeOk, ImageRecord, SizesFit, ClearTable;
    var s := ImageOf(mem);
    HealthyImage(mem, l, h);
    ImageSizes(mem, l);
    ReplayImage(l, h, any, s);
    ReplayOnce(l, h, any, [], ImageRecord(l, s));
    assert [] + [ImageRecord(l, s)] == [ImageRecord(l, s)];
    ClearSessionsKeys(mem.sessions);
    ClearedTwin(mem, ClearSessions(mem.sessions));
    assert s == ClearVolatile(mem).(sessions := ClearSessions(mem.sessions));
    HealthyShape(s, l, h);
  }

  /** Every operation keeps the store a faithful account of the memory. */
  lemma ActSturdy(c: Config, l: Limits, h: nat, sys: System, a: Action)
    requires Sturdy(c, l, h, sys) && ImageReadable(l, sys, a) && FIRST + |sys.log| + 1 <= TWO_64 - 1
    ensures Sturdy(c, l, h, Act(c, l, h, sys, a))
  {
    hide Sturdy, Act, SizesFit;
    match a
    case IngestAction(e, receivedAt) => IngestSturdy(c, l, h, sys, e, receivedAt);
    case OpenAction(d, incarnation, recordedAt, openedAt) => OpenSturdy(c, l, h, sys, d, incarnation, recordedAt,
      openedAt);
    case CloseAction(o) => CloseSturdy(c, l, h, sys, o);
    case CompactAction =>
      SturdyKeeps(c, l, h, sys);
      CompactSturdy(c, l, h, sys);
  }

  // ---- Runs ----

  /** A new store: its first record is the image of the empty registry. */
  ghost function Boot(l: Limits, id: Id, openedAt: I64): System
  {
    System(EmptyState(id, openedAt), [ImageRecord(l, ImageOf(EmptyState(id, openedAt)))])
  }

  ghost function Acts(c: Config, l: Limits, h: nat, sys: System, actions: seq<Action>): System
    decreases |actions|
  {
    if actions == [] then sys else Act(c, l, h, Acts(c, l, h, sys, actions[..|actions| - 1]), actions[|actions| - 1])
  }

  /** No compaction of the run writes an image its own reader would refuse. */
  ghost predicate AllReadable(c: Config, l: Limits, h: nat, sys: System, actions: seq<Action>)
    decreases |actions|
  {
    actions == [] ||
    (AllReadable(c, l, h, sys, actions[..|actions| - 1])
     && ImageReadable(l, Acts(c, l, h, sys, actions[..|actions| - 1]), actions[|actions| - 1]))
  }

  lemma EmptyFits(l: Limits, id: Id, openedAt: I64)
    ensures SizesFit(EmptyState(id, openedAt), l)
  {
    hide Times32;
  }

  lemma BootSturdy(c: Config, l: Limits, h: nat, id: Id, openedAt: I64)
    requires Chains(c.step) && Durable(c, ImageRecord(l, ImageOf(EmptyState(id, openedAt))))
    requires h <= l.maxHistoryPerKey && l.maxClaimsPerPort >= 1
    ensures Sturdy(c, l, h, Boot(l, id, openedAt))
  {
    hide Replay, ReplayOne, Twin, ShapeOk, ImageRecord, SizesFit, ImageOf, Good;
    var s := EmptyState(id, openedAt);
    GoodStart(id, openedAt, l, h);
    EmptyFits(l, id, openedAt);
    assert Healthy(s, l, h);
    forall any
      ensures ReplaysFrom(l, h, Boot(l, id, openedAt), any)
    {
      ImageReplays(l, h, any, s);
    }
  }

  lemma ActLog(c: Config, l: Limits, h: nat, sys: System, a: Action)
    ensures |Act(c, l, h, sys, a).log| <= |sys.log| + 1
  {
    hide IngestRecord, OpenSession, CloseSession, Applied, OpenAnswer, EvidenceRecord, OpeningRecord, ClosingRecord,
         ImageRecord, ImageOf;
  }

  lemma {:induction false} RunSturdy(c: Config, l: Limits, h: nat, sys: System, actions: seq<Action>)
    requires Sturdy(c, l, h, sys) && AllReadable(c, l, h, sys, actions) && FIRST + |sys.log| + |actions| <= TWO_64 - 1
    ensures Sturdy(c, l, h, Acts(c, l, h, sys, actions))
    ensures |Acts(c, l, h, sys, actions).log| <= |sys.log| + |actions|
    decreases |actions|
  {
    hide Sturdy, Act, ImageReadable;
    if actions != [] {
      var init, a := actions[..|actions| - 1], actions[|actions| - 1];
      RunSturdy(c, l, h, sys, init);
      ActSturdy(c, l, h, Acts(c, l, h, sys, init), a);
      ActLog(c, l, h, Acts(c, l, h, sys, init), a);
    }
  }

  // ---- Crashes ----

  /**
    * The file a crash during an operation leaves behind: a compaction replaces the file whole or
    * not at all, any other operation leaves the old file and some part of the new frame.
    */
  ghost predicate CrashLeaves(c: Config, sys: System, sys': System, a: Action, file: Bytes)
    requires Numbered(sys.log) && Numbered(sys'.log)
  {
    if a.CompactAction? then file == FileOf(c, sys.log) || file == FileOf(c, sys'.log)
    else FileOf(c, sys.log) <= file && file <= FileOf(c, sys'.log)
  }

  /** The recovered registry is the old one with its lifetime forgotten and other session bookkeeping. */
  ghost predicate Rebuilt(mem: RegistryState, recovered: RegistryState)
  {
    recovered == ClearVolatile(mem).(sessions := recovered.sessions) && recovered.sessions.Keys == mem.sessions.Keys
  }

  lemma RecoverWhole(c: Config, l: Limits, h: nat, strict: bool, any: RegistryState, sys: System, file: Bytes)
    requires Sturdy(c, l, h, sys)
    requires OpenFile(c, strict, file).Opened? && OpenFile(c, strict, file).records == sys.log
    ensures Recover(c, l, h, strict, any, file).Some? && Rebuilt(sys.mem, Recover(c, l, h, strict, any, file).value)
  {
    hide Healthy, Replay, Twin, ShapeOk, OpenFile, Keeps, ClearVolatile;
    assert ReplaysFrom(l, h, sys, any);
    var t := Replay(l, h, any, sys.log).value;
    TwinRebuilt(sys.mem, t);
  }

  lemma TwinRebuilt(s: RegistryState, t: RegistryState)
    requires Twin(s, t) && t.id == s.id && t.openedAt == s.openedAt
    ensures Rebuilt(s, ClearVolatile(t))
  {
    hide ClearTable;
    ClearSessionsKeys(t.sessions);
    TwinCleared(s, t);
  }

  /** A recovered registry over its truncated file is as sturdy as the one that crashed. */
  lemma RebuiltSturdy(c: Config, l: Limits, h: nat, sys: System, recovered: RegistryState)
    requires Sturdy(c, l, h, sys) && Rebuilt(sys.mem, recovered)
    ensures Sturdy(c, l, h, System(recovered, sys.log))
  {
    hide Healthy, Replay, ShapeOk, Keeps, ClearVolatile, Twin;
    HealthyRestart(sys.mem, l, h, recovered.sessions);
    ClearKeepsName(sys.mem);
    forall any
      ensures ReplaysFrom(l, h, System(recovered, sys.log), any)
    {
      assert ReplaysFrom(l, h, sys, any);
      ClearedTwin(sys.mem, recovered.sessions);
      TwinsTwin(sys.mem, recovered, Replay(l, h, any, sys.log).value);
    }
  }

  lemma ClearKeepsName(s: RegistryState)
    ensures ClearVolatile(s).id == s.id && ClearVolatile(s).openedAt == s.openedAt
  {
    hide ClearTable;
  }

  lemma TwinsTwin(s: RegistryState, t: RegistryState, u: RegistryState)
    requires Twin(s, t) && Twin(s, u)
    ensures Twin(t, u)
  {
    hide ClearTable;
  }

  /** The number of whole records before byte k is at least those that fit. */
  lemma {:induction false} WholeAtLeast(step: ChainStep, chain: Bytes, sequence: U64, rs: seq<StoreRecord>,
                                        more: seq<StoreRecord>, k: nat)
    requires sequence + |rs + more| <= TWO_64 - 1 && |WriteLog(step, chain, sequence, rs)| <= k
    ensures WholeBefore(step, chain, sequence, rs + more, k) >= |rs|
    decreases |rs|
  {
    hide Frame, NextChain;
    if rs != [] {
      var frame, next := Frame(step, chain, sequence, rs[0]), NextChain(step, chain, sequence, rs[0]);
      assert (rs + more)[0] == rs[0] && (rs + more)[1..] == rs[1..] + more;
      WholeAtLeast(step, next, sequence + 1, rs[1..], more, k - |frame|);
    }
  }

  /** A torn append opens as the old log, or as the new one. */
  lemma TornAppend(c: Config, strict: bool, rs: seq<StoreRecord>, r: StoreRecord, file: Bytes)
    requires Keeps(c, rs + [r]) && Numbered(rs) && FileOf(c, rs) <= file <= FileOf(c, rs + [r])
    ensures var open := OpenFile(c, strict, file);
            open.Opened? && (open.records == rs || open.records == rs + [r]) && Numbered(open.records)
            && FileAfterOpen(c, strict, file) == FileOf(c, open.records)
  {
    hide Scan, WriteLog, FileHeader, HeaderAccepted, WholeBefore, OpenFile, FileAfterOpen, AllStorable;
    var k := |file|;
    assert file == FileOf(c, rs + [r])[..k];
    FileSizes(c, rs);
    CutIsSafe(c, strict, rs + [r], k);
    WholeAtLeast(c.step, c.seed, FIRST, rs, [r], k - HEADER_BYTES);
    var m := WholeBefore(c.step, c.seed, FIRST, rs + [r], k - HEADER_BYTES);
    assert (rs + [r])[..|rs|] == rs && (rs + [r])[..|rs| + 1] == rs + [r];
  }

  lemma FileSizes(c: Config, rs: seq<StoreRecord>)
    requires Numbered(rs)
    ensures |FileOf(c, rs)| == HEADER_BYTES + |WriteLog(c.step, c.seed, FIRST, rs)|
  {
    hide WriteLog, FileHeader;
  }

  lemma LogGrowth(c: Config, l: Limits, h: nat, sys: System, a: Action)
    requires !a.CompactAction?
    ensures var sys' := Act(c, l, h, sys, a);
            sys'.log == sys.log || (sys'.log != [] && sys'.log == sys.log + [sys'.log[|sys'.log| - 1]])
  {
    hide IngestRecord, OpenSession, CloseSession, Applied, OpenAnswer, EvidenceRecord, OpeningRecord, ClosingRecord;
  }

  /** Open finds one of the two logs in the file, and leaves exactly that log there. */
  ghost predicate Settles(c: Config, strict: bool, file: Bytes, before: seq<StoreRecord>, after: seq<StoreRecord>)
  {
    var open := OpenFile(c, strict, file);
    && open.Opened? && (open.records == before || open.records == after)
    && Numbered(open.records) && FileAfterOpen(c, strict, file) == FileOf(c, open.records)
  }

  /** What Open makes of the file a crash leaves: the log before the operation, or the log after it. */
  lemma CrashedFile(c: Config, l: Limits, h: nat, strict: bool, sys: System, a: Action, file: Bytes)
    requires Keeps(c, sys.log) && Keeps(c, Act(c, l, h, sys, a).log)
    requires CrashLeaves(c, sys, Act(c, l, h, sys, a), a, file)
    ensures Settles(c, strict, file, sys.log, Act(c, l, h, sys, a).log)
  {
    hide Act, OpenFile, FileAfterOpen, FileOf, AllStorable;
    var sys' := Act(c, l, h, sys, a);
    OpenWritten(c, strict, sys.log);
    OpenWritten(c, strict, sys'.log);
    if !a.CompactAction? {
      LogGrowth(c, l, h, sys, a);
      if sys'.log == sys.log {
        assert file == FileOf(c, sys.log);
      } else {
        TornAppend(c, strict, sys.log, sys'.log[|sys'.log| - 1], file);
      }
    }
  }

  /** The crash point: the system before and after the operation in flight, and the file left behind. */
  ghost predicate Crashed(c: Config, l: Limits, h: nat, sys: System, a: Action, file: Bytes)
  {
    var sys' := Act(c, l, h, sys, a);
    Numbered(sys.log) && Numbered(sys'.log) && CrashLeaves(c, sys, sys', a, file)
  }

  /** Opening leaves exactly this log in the file. */
  ghost predicate LeftAs(c: Config, strict: bool, file: Bytes, log: seq<StoreRecord>)
  {
    Numbered(log) && FileAfterOpen(c, strict, file) == FileOf(c, log)
  }

  /**
    * Opening the file gives back exactly this system's claims and sources, truncates the file to
    * exactly its log, and yields a system as sturdy as before.
    */
  ghost predicate ComesBack(c: Config, l: Limits, h: nat, strict: bool, any: RegistryState, file: Bytes, sys: System)
  {
    && LeftAs(c, strict, file, sys.log)
    && match Recover(c, l, h, strict, any, file)
       case Some(t) => Rebuilt(sys.mem, t) && Sturdy(c, l, h, System(t, sys.log))
       case None => false
  }

  lemma CrashRecovers(c: Config, l: Limits, h: nat, strict: bool, any: RegistryState, sys: System, a: Action,
                      file: Bytes)
    requires Sturdy(c, l, h, sys) && Sturdy(c, l, h, Act(c, l, h, sys, a)) && Crashed(c, l, h, sys, a, file)
    ensures ComesBack(c, l, h, strict, any, file, sys) || ComesBack(c, l, h, strict, any, file, Act(c, l, h, sys, a))
  {
    hide Act, Sturdy, Recover, OpenFile, FileAfterOpen, FileOf, Rebuilt, CrashLeaves;
    var sys' := Act(c, l, h, sys, a);
    assert Keeps(c, sys.log) && Keeps(c, sys'.log) by { SturdyKeeps(c, l, h, sys); SturdyKeeps(c, l, h, sys'); }
    CrashedFile(c, l, h, strict, sys, a, file);
    var chosen := if OpenFile(c, strict, file).records == sys.log then sys else sys';
    RecoverWhole(c, l, h, strict, any, chosen, file);
    RebuiltSturdy(c, l, h, chosen, Recover(c, l, h, strict, any, file).value);
    assert ComesBack(c, l, h, strict, any, file, chosen);
  }

  /**
    * Recovery equivalence.  After any run without I/O errors and without an unreadable compaction,
    * a crash at any point of the next operation followed by Open, strict or not, comes back with
    * the claims and sources of the last acknowledged operation, or of that and the one in flight.
    */
  lemma RecoveryEquivalence(c: Config, l: Limits, h: nat, strict: bool, any: RegistryState, start: System,
                            actions: seq<Action>, a: Action, file: Bytes)
    requires Sturdy(c, l, h, start) && AllReadable(c, l, h, start, actions + [a])
    requires |start.log| + |actions| + 3 <= TWO_64 - 1
    requires Crashed(c, l, h, Acts(c, l, h, start, actions), a, file)
    ensures var sys := Acts(c, l, h, start, actions);
            ComesBack(c, l, h, strict, any, file, sys) || ComesBack(c, l, h, strict, any, file, Act(c, l, h, sys, a))
  {
    hide Act, Sturdy, ImageReadable, Crashed, ComesBack;
    assert (actions + [a])[..|actions|] == actions;
    assert AllReadable(c, l, h, start, actions);
    RunSturdy(c, l, h, start, actions);
    var sys := Acts(c, l, h, start, actions);
    ActSturdy(c, l, h, sys, a);
    CrashRecovers(c, l, h, strict, any, sys, a, file);
  }

  /** The same for every run of a new store, from its first image on. */
  lemma NewStoreRecovers(c: Config, l: Limits, h: nat, strict: bool, any: RegistryState, id: Id, openedAt: I64,
                         actions: seq<Action>, a: Action, file: Bytes)
    requires Chains(c.step) && Durable(c, ImageRecord(l, ImageOf(EmptyState(id, openedAt))))
    requires h <= l.maxHistoryPerKey && l.maxClaimsPerPort >= 1 && |actions| + 4 <= TWO_64 - 1
    requires AllReadable(c, l, h, Boot(l, id, openedAt), actions + [a])
    requires Crashed(c, l, h, Acts(c, l, h, Boot(l, id, openedAt), actions), a, file)
    ensures var sys := Acts(c, l, h, Boot(l, id, openedAt), actions);
            ComesBack(c, l, h, strict, any, file, sys) || ComesBack(c, l, h, strict, any, file, Act(c, l, h, sys, a))
  {
    hide Act, Acts, Sturdy, AllReadable, Crashed, ComesBack, Durable, ImageRecord;
    BootSturdy(c, l, h, id, openedAt);
    RecoveryEquivalence(c, l, h, strict, any, Boot(l, id, openedAt), actions, a, file);
  }

  /**
    * A compaction can be recovered from exactly when no count of the memory exceeds the bound its
    * reader puts on it; otherwise it leaves a store that no Open accepts.
    */
  lemma CompactionExactly(c: Config, l: Limits, h: nat, strict: bool, sys: System, any: RegistryState)
    requires Sturdy(c, l, h, sys) && Durable(c, ImageRecord(l, ImageOf(sys.mem)))
    ensures Reopens(c, l, h, strict, any, Act(c, l, h, sys, CompactAction)) <==> SizesFit(sys.mem, l)
  {
    hide Healthy, ReplayOne, SizesFit, ImageOf, ImageRecord, Replays, Reopens, Keeps;
    var r := ImageRecord(l, ImageOf(sys.mem));
    HealthyImage(sys.mem, l, h);
    ImageSizes(sys.mem, l);
    ReplayImage(l, h, any, ImageOf(sys.mem));
    assert Keeps(c, [r]) by { KeepsOne(c, sys.log, r); }
    OneRecord(c, l, h, strict, any, System(sys.mem, [r]));
  }

  /** Opening the file that holds this system's log succeeds. */
  ghost predicate Reopens(c: Config, l: Limits, h: nat, strict: bool, any: RegistryState, sys: System)
  {
    Numbered(sys.log) && Recover(c, l, h, strict, any, FileOf(c, sys.log)).Some?
  }

  /** A sturdy system's file opens. */
  lemma SturdyReopens(c: Config, l: Limits, h: nat, strict: bool, any: RegistryState, sys: System)
    requires Sturdy(c, l, h, sys)
    ensures Reopens(c, l, h, strict, any, sys)
  {
    hide Healthy, Replays, OpenFile, FileOf, Recover, Rebuilt;
    OpenWritten(c, strict, sys.log);
    RecoverWhole(c, l, h, strict, any, sys, FileOf(c, sys.log));
  }

  lemma KeepsOne(c: Config, rs: seq<StoreRecord>, r: StoreRecord)
    requires Keeps(c, rs) && Storable(r, c.max)
    ensures Keeps(c, [r])
  {
  }

  lemma OneRecord(c: Config, l: Limits, h: nat, strict: bool, any: RegistryState, sys: System)
    requires |sys.log| == 1 && Keeps(c, sys.log)
    ensures Reopens(c, l, h, strict, any, sys) <==> ReplayOne(l, h, any, sys.log[0]).Some?
  {
    hide ReplayOne, OpenFile, FileOf, ClearVolatile;
    var r := sys.log[0];
    ReplayOnce(l, h, any, [], r);
    assert [] + [r] == [r] == sys.log;
    OpenWritten(c, strict, sys.log);
  }
}
