// A store that crashed between its header and its first image: Open takes it for an old store, so
// no image is ever appended.  What is recovered from it afterwards, and under which identity.

module Headless {
  import opened Words
  import opened Evidence
  import opened Ordering
  import opened State
  import opened Ingest
  import Effects
  import opened Sessions
  import opened Keys
  import opened Invariants
  import opened Placement
  import opened Bounds
  import opened Reachable
  import opened Twins
  import opened StateImage
  import opened Log
  import opened StoreFile
  import opened Recovery
  import opened Durability

  /** A file that holds a header only opens without a record, as it is, to whatever the process starts with. */
  lemma HeaderOnlyOpens(c: Config, l: Limits, h: nat, strict: bool, fresh': RegistryState)
    requires Chains(c.step)
    ensures OpenFile(c, strict, FileHeader()) == OpenResult.Opened([], HEADER_BYTES, None)
    ensures FileAfterOpen(c, strict, FileHeader()) == FileHeader()
    ensures Recover(c, l, h, strict, fresh', FileHeader()) == Some(ClearVolatile(fresh'))
  {
    hide OpenFile, FileAfterOpen, FileHeader, ReplayOne, ClearVolatile;
    OpenWritten(c, strict, []);
    assert FileOf(c, []) == FileHeader() by { assert LogOf(c, []) == []; assert FileHeader() + [] == FileHeader(); }
  }

  /**
    * Whatever identity a process starts with, replaying the log from nothing rebuilds a twin of the
    * memory under that identity.
    */
  ghost predicate Bare(c: Config, l: Limits, h: nat, sys: System)
  {
    Healthy(sys.mem, l, h) && Keeps(c, sys.log)
    && forall id: Id, at: I64 :: Follows(l, h, sys, EmptyState(id, at), id, at)
  }

  lemma BareStart(c: Config, l: Limits, h: nat, id: Id, openedAt: I64)
    requires Chains(c.step) && h <= l.maxHistoryPerKey && l.maxClaimsPerPort >= 1
    ensures Bare(c, l, h, System(EmptyState(id, openedAt), []))
  {
    hide ReplayOne, Good, ShapeOk, Twin;
    GoodStart(id, openedAt, l, h);
    forall i: Id, at: I64
      ensures Follows(l, h, System(EmptyState(id, openedAt), []), EmptyState(i, at), i, at)
    {
      EmptyTwins(id, openedAt, i, at);
    }
  }

  lemma EmptyTwins(id: Id, openedAt: I64, id': Id, openedAt': I64)
    ensures Twin(EmptyState(id, openedAt), EmptyState(id', openedAt')) && ShapeOk(EmptyState(id', openedAt'))
  {
  }

  lemma ActFollows(c: Config, l: Limits, h: nat, sys: System, a: Action, any: RegistryState, id: Id, at: I64)
    requires Healthy(sys.mem, l, h) && !a.CompactAction? && Follows(l, h, sys, any, id, at)
    ensures Follows(l, h, Act(c, l, h, sys, a), any, id, at)
  {
    hide Healthy, Follows, Act;
    match a
    case IngestAction(e, receivedAt) => IngestFollows(c, l, h, sys, e, receivedAt, any, id, at);
    case OpenAction(d, incarnation, recordedAt, openedAt) =>
      OpenFollows(c, l, h, sys, d, incarnation, recordedAt, openedAt, any, id, at);
    case CloseAction(o) => CloseFollows(c, l, h, sys, o, any, id, at);
  }

  lemma ActHealthy(c: Config, l: Limits, h: nat, sys: System, a: Action)
    requires Healthy(sys.mem, l, h) && !a.CompactAction?
    ensures Healthy(Act(c, l, h, sys, a).mem, l, h)
  {
    hide Healthy, IngestRecord, OpenSession, CloseSession, Durable, EvidenceRecord, OpeningRecord, ClosingRecord;
    match a
    case IngestAction(e, receivedAt) =>
      HealthyStep(sys.mem, l, h, Ingesting(e, receivedAt, Durable(c, EvidenceRecord(l, e, receivedAt))));
    case OpenAction(d, incarnation, recordedAt, openedAt) =>
      HealthyStep(sys.mem, l, h, Opening(d, incarnation, openedAt, Durable(c, OpeningRecord(l, d, incarnation,
        recordedAt))));
    case CloseAction(o) => HealthyStep(sys.mem, l, h, Closing(o, Durable(c, ClosingRecord(o))));
  }

  /** Every record an operation adds is one the store takes. */
  lemma ActKeeps(c: Config, l: Limits, h: nat, sys: System, a: Action)
    requires Keeps(c, sys.log) && !a.CompactAction? && FIRST + |sys.log| + 1 <= TWO_64 - 1
    ensures Keeps(c, Act(c, l, h, sys, a).log)
  {
    hide IngestRecord, OpenSession, CloseSession, EvidenceRecord, OpeningRecord, ClosingRecord, Keeps, OpenAnswer,
         Effects.Applied;
    match a
    case IngestAction(e, receivedAt) =>
      var r := EvidenceRecord(l, e, receivedAt);
      if Effects.Applied(sys.mem, l, e, receivedAt, Durable(c, r), true) {
        AppliedParts(sys.mem, l, e, receivedAt, Durable(c, r), true);
        KeepsMore(c, sys.log, r);
      }
    case OpenAction(d, incarnation, recordedAt, openedAt) =>
      var r := OpeningRecord(l, d, incarnation, recordedAt);
      if OpenAccepted(OpenAnswer(sys.mem, l, d, incarnation, Durable(c, r))) {
        OpenChecked(sys.mem, l, d, incarnation, Durable(c, r));
        KeepsMore(c, sys.log, r);
      }
    case CloseAction(o) =>
      var r := ClosingRecord(o);
      if o in sys.mem.sessions && Durable(c, r) { KeepsMore(c, sys.log, r); }
  }

  /** Every operation but a compaction keeps a bare store bare; a readable compaction makes it sturdy. */
  lemma BareAct(c: Config, l: Limits, h: nat, sys: System, a: Action)
    requires Bare(c, l, h, sys) && FIRST + |sys.log| + 1 <= TWO_64 - 1
    ensures !a.CompactAction? ==> Bare(c, l, h, Act(c, l, h, sys, a))
    ensures a.CompactAction? && SizesFit(sys.mem, l) && Durable(c, ImageRecord(l, ImageOf(sys.mem))) ==>
              Sturdy(c, l, h, Act(c, l, h, sys, a))
  {
    hide Healthy, Act, Follows, Keeps, SizesFit, Durable, ImageRecord, Sturdy;
    if !a.CompactAction? {
      ActHealthy(c, l, h, sys, a);
      ActKeeps(c, l, h, sys, a);
      forall id: Id, at: I64
        ensures Follows(l, h, Act(c, l, h, sys, a), EmptyState(id, at), id, at)
      {
        ActFollows(c, l, h, sys, a, EmptyState(id, at), id, at);
      }
    } else if SizesFit(sys.mem, l) && Durable(c, ImageRecord(l, ImageOf(sys.mem))) {
      CompactSturdy(c, l, h, sys);
    }
  }

  lemma {:induction false} BareRun(c: Config, l: Limits, h: nat, sys: System, actions: seq<Action>)
    requires Bare(c, l, h, sys) && CompactAction !in actions && FIRST + |sys.log| + |actions| <= TWO_64 - 1
    ensures Bare(c, l, h, Acts(c, l, h, sys, actions))
    ensures |Acts(c, l, h, sys, actions).log| <= |sys.log| + |actions|
    decreases |actions|
  {
    hide Bare, Act, Sturdy;
    if actions != [] {
      var init, a := actions[..|actions| - 1], actions[|actions| - 1];
      BareRun(c, l, h, sys, init);
      assert a in actions;
      BareAct(c, l, h, Acts(c, l, h, sys, init), a);
      ActLog(c, l, h, Acts(c, l, h, sys, init), a);
    }
  }

  /** The memory as a process of another identity finds it. */
  ghost predicate RebuiltAs(mem: RegistryState, recovered: RegistryState, id: Id, at: I64)
  {
    && recovered.sessions.Keys == mem.sessions.Keys
    && recovered == ClearVolatile(mem).(id := id, openedAt := at, sessions := recovered.sessions)
  }

  /**
    * Opening the file gives this system's claims and sources under the identity of the process that
    * opens it, truncates the file to exactly its log, and yields a system as bare as before.
    */
  ghost predicate ComesBackAs(c: Config, l: Limits, h: nat, strict: bool, file: Bytes, sys: System, id: Id, at: I64)
  {
    && LeftAs(c, strict, file, sys.log)
    && match Recover(c, l, h, strict, EmptyState(id, at), file)
       case Some(t) => RebuiltAs(sys.mem, t, id, at) && Bare(c, l, h, System(t, sys.log))
       case None => false
  }

  lemma BareOpens(c: Config, l: Limits, h: nat, strict: bool, file: Bytes, sys: System, id: Id, at: I64)
    requires Bare(c, l, h, sys) && LeftAs(c, strict, file, sys.log)
    requires OpenFile(c, strict, file).Opened? && OpenFile(c, strict, file).records == sys.log
    ensures ComesBackAs(c, l, h, strict, file, sys, id, at)
  {
    hide Healthy, Replay, Twin, ShapeOk, OpenFile, Keeps, ClearVolatile, LeftAs;
    assert Follows(l, h, sys, EmptyState(id, at), id, at);
    var t := Replay(l, h, EmptyState(id, at), sys.log).value;
    TwinRenamed(sys.mem, t);
    RebuiltBare(c, l, h, sys, ClearVolatile(t), id, at);
  }

  lemma RebuiltBare(c: Config, l: Limits, h: nat, sys: System, recovered: RegistryState, id: Id, at: I64)
    requires Bare(c, l, h, sys) && RebuiltAs(sys.mem, recovered, id, at)
    ensures Bare(c, l, h, System(recovered, sys.log))
  {
    hide Healthy, Replay, Twin, ShapeOk, Keeps, ClearVolatile;
    var same := ClearVolatile(sys.mem).(sessions := recovered.sessions);
    HealthyRestart(sys.mem, l, h, recovered.sessions);
    HealthyRenamed(same, recovered, l, h);
    ClearedTwin(sys.mem, recovered.sessions);
    forall i: Id, t: I64
      ensures Follows(l, h, System(recovered, sys.log), EmptyState(i, t), i, t)
    {
      assert Follows(l, h, sys, EmptyState(i, t), i, t);
      TwinsTwin(sys.mem, same, Replay(l, h, EmptyState(i, t), sys.log).value);
      TwinIgnoresName(same, recovered, Replay(l, h, EmptyState(i, t), sys.log).value);
    }
  }

  lemma TwinIgnoresName(s: RegistryState, t: RegistryState, u: RegistryState)
    requires t == s.(id := t.id, openedAt := t.openedAt) && Twin(s, u)
    ensures Twin(t, u)
  {
    hide ClearTable;
  }

  /** No invariant mentions the identity. */
  lemma HealthyRenamed(s: RegistryState, t: RegistryState, l: Limits, h: nat)
    requires Healthy(s, l, h) && t == s.(id := t.id, openedAt := t.openedAt)
    ensures Healthy(t, l, h)
  {
    hide At, ClaimOk, RingOk, SlotsFiled, NoEmptyGroup, CatalogueOf, SourcesFit;
    forall k
      ensures At(t, k) == At(s, k)
    {
      AtIgnoresRest(s, t, k);
    }
    assert forall k, m :: RecordOk(s, k, m) ==> RecordOk(t, k, m);
    assert PlacementOk(t) by { PlacementRenamed(s, t); }
  }

  lemma PlacementRenamed(s: RegistryState, t: RegistryState)
    requires PlacementOk(s) && t == s.(id := t.id, openedAt := t.openedAt)
    ensures PlacementOk(t)
  {
    assert forall key :: Behind(s, key) ==> Behind(t, key);
    assert forall side, o :: Ahead(s, side, o) ==> Ahead(t, side, o);
  }

  lemma TwinRenamed(s: RegistryState, t: RegistryState)
    requires Twin(s, t)
    ensures RebuiltAs(s, ClearVolatile(t), t.id, t.openedAt)
  {
    hide ClearTable;
    ClearSessionsKeys(t.sessions);
    TwinCleared(s, t);
  }

  /**
    * A registry over a store without an image: after any run without a compaction, a crash at any
    * byte of the next operation and an Open, strict or not, by a process of whatever identity rebuild
    * the claims and sources of the last acknowledged operation, or of that and the one in flight,
    * under the identity and opening time of that process.
    */
  lemma BareRecovers(c: Config, l: Limits, h: nat, strict: bool, start: System, actions: seq<Action>, a: Action,
                     file: Bytes, id: Id, at: I64)
    requires Bare(c, l, h, start) && CompactAction !in actions + [a] && |start.log| + |actions| + 3 <= TWO_64 - 1
    requires Crashed(c, l, h, Acts(c, l, h, start, actions), a, file)
    ensures var sys := Acts(c, l, h, start, actions);
            || ComesBackAs(c, l, h, strict, file, sys, id, at)
            || ComesBackAs(c, l, h, strict, file, Act(c, l, h, sys, a), id, at)
  {
    hide Act, Acts, Bare, CrashLeaves, OpenFile, FileAfterOpen, ComesBackAs, Sturdy, FileOf;
    assert a in actions + [a] && forall b :: b in actions ==> b in actions + [a];
    BareRun(c, l, h, start, actions);
    var sys := Acts(c, l, h, start, actions);
    BareAct(c, l, h, sys, a);
    var sys' := Act(c, l, h, sys, a);
    BareKeeps(c, l, h, sys);
    BareKeeps(c, l, h, sys');
    CrashedFile(c, l, h, strict, sys, a, file);
    var chosen := if OpenFile(c, strict, file).records == sys.log then sys else sys';
    BareOpens(c, l, h, strict, file, chosen, id, at);
  }

  /** The same from a file that holds a header only. */
  lemma HeadlessRecovers(c: Config, l: Limits, h: nat, strict: bool, id: Id, openedAt: I64, actions: seq<Action>,
                         a: Action, file: Bytes, id': Id, openedAt': I64)
    requires Chains(c.step) && h <= l.maxHistoryPerKey && l.maxClaimsPerPort >= 1 && |actions| + 3 <= TWO_64 - 1
    requires CompactAction !in actions + [a]
    requires Crashed(c, l, h, Acts(c, l, h, System(EmptyState(id, openedAt), []), actions), a, file)
    ensures var sys := Acts(c, l, h, System(EmptyState(id, openedAt), []), actions);
            || ComesBackAs(c, l, h, strict, file, sys, id', openedAt')
            || ComesBackAs(c, l, h, strict, file, Act(c, l, h, sys, a), id', openedAt')
  {
    hide Act, Acts, Bare, Crashed, ComesBackAs;
    BareStart(c, l, h, id, openedAt);
    BareRecovers(c, l, h, strict, System(EmptyState(id, openedAt), []), actions, a, file, id', openedAt');
  }

  lemma BareKeeps(c: Config, l: Limits, h: nat, sys: System)
    requires Bare(c, l, h, sys)
    ensures Keeps(c, sys.log)
  {
    hide Healthy, Keeps, Follows;
  }
}
