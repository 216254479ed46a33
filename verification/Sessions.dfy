// Sessions: opening, closing and fencing, and the runs of the registry.

module Sessions {
  import opened Words
  import opened Evidence
  import opened State
  import opened Ingest

  datatype OpenDisposition =
    | Opened | Resumed | Reopened | NewIncarnation
    | OpenFenced | OpenDescriptorConflict | OpenInvalid | OpenCapacity | OpenPersistence | OpenClosed

  predicate OpenAccepted(d: OpenDisposition) { d.Opened? || d.Resumed? || d.Reopened? || d.NewIncarnation? }

  const FRESH_SESSION: SessionRecord := SessionRecord(0, 0, false, false, 0, 0, 0, 0)

  function SourceBefore(s: RegistryState, d: SourceDescriptor): SourceRecord
  {
    if d.id in s.sources then s.sources[d.id] else SourceRecord(d, 0, 0, false)
  }

  /** A descriptor is bound to the incarnation that brought it. */
  function SourceAfterOpen(before: SourceRecord, d: SourceDescriptor, incarnation: U64): SourceRecord
  {
    var described := if !before.described || incarnation > before.descriptorIncarnation
                     then before.(descriptor := d, descriptorIncarnation := incarnation, described := true) else before;
    if incarnation > described.currentIncarnation
    then described.(currentIncarnation := incarnation) else described
  }

  function SessionAfterOpen(s: RegistryState, o: Owner, openedAt: I64): SessionRecord
  {
    var session := if o in s.sessions then s.sessions[o] else FRESH_SESSION;
    if session.openedAt == 0 then session.(openedAt := openedAt) else session
  }

  /** apply_session_open() */
  function ApplySessionOpen(s: RegistryState, d: SourceDescriptor, incarnation: U64, openedAt: I64): RegistryState
  {
    var key := Owner(d.id, incarnation);
    s.(sources := s.sources[d.id := SourceAfterOpen(SourceBefore(s, d), d, incarnation)],
       sessions := s.sessions[key := SessionAfterOpen(s, key, openedAt)])
  }

  /** How OpenSession answers; `durable` says whether the session record could be persisted. */
  function OpenAnswer(s: RegistryState, l: Limits, d: SourceDescriptor, incarnation: U64,
                      durable: bool): OpenDisposition
  {
    var known := d.id in s.sources;
    var previous := if known then s.sources[d.id].currentIncarnation else 0;
    var key := Owner(d.id, incarnation);
    if d.id == 0 || incarnation == 0 then OpenInvalid
    else if !Fits(d.name, l.maxStringBytes) || !Fits(d.domain, l.maxStringBytes) then OpenInvalid
    else if !known && |s.sources| >= l.maxSources then OpenCapacity
    else if incarnation < previous then OpenFenced
    else if known && incarnation == previous && s.sources[d.id].described && s.sources[d.id].descriptor != d
    then OpenDescriptorConflict
    else if !durable then OpenPersistence
    else if previous == 0 then Opened
    else if incarnation > previous then NewIncarnation
    else if key in s.sessions && s.sessions[key].live then Resumed
    else Reopened
  }

  function OpenSession(s: RegistryState, l: Limits, d: SourceDescriptor, incarnation: U64, openedAt: I64,
                       durable: bool):
    RegistryState
  {
    if OpenAccepted(OpenAnswer(s, l, d, incarnation, durable)) then
      var s' := ApplySessionOpen(s, d, incarnation, openedAt);
      var key := Owner(d.id, incarnation);
      s'.(sessions := s'.sessions[key := s'.sessions[key].(live := true, closed := false)])
    else s
  }

  function CloseSession(s: RegistryState, o: Owner, durable: bool): RegistryState
  {
    if o in s.sessions && durable
    then s.(sessions := s.sessions[o := s.sessions[o].(live := false, closed := true)])
    else s
  }

  // ---- Runs ----

  /** What can happen to a registry between two states. */
  datatype Event =
    | Opening(descriptor: SourceDescriptor, incarnation: U64, openedAt: I64, durable: bool)
    | Closing(owner: Owner, durable: bool)
    | Ingesting(evidence: Evidence, receivedAt: I64, durable: bool)
    // The process restarts: lifetime flags go, session bookkeeping may change, its keys do not.
    | Restarting(bookkeeping: map<Owner, SessionRecord>)

  ghost function Step(s: RegistryState, l: Limits, h: nat, ev: Event): RegistryState
  {
    match ev
    case Opening(d, incarnation, openedAt, durable) => OpenSession(s, l, d, incarnation, openedAt, durable)
    case Closing(o, durable) => CloseSession(s, o, durable)
    case Ingesting(e, receivedAt, durable) => IngestRecord(s, l, h, e, receivedAt, durable, true).state
    case Restarting(bookkeeping) =>
      if bookkeeping.Keys == s.sessions.Keys then ClearVolatile(s).(sessions := bookkeeping) else s
  }

  ghost function Run(s: RegistryState, l: Limits, h: nat, evs: seq<Event>): RegistryState
    decreases |evs|
  {
    if evs == [] then s else Step(Run(s, l, h, evs[..|evs| - 1]), l, h, evs[|evs| - 1])
  }
}
