// Which session opens are accepted, and what a second open of the same incarnation does.

module Openings {
  import opened Words
  import opened Evidence
  import opened State
  import opened Ingest
  import opened Sessions
  import opened Invariants

  /** The open itself is sound: an identity, an incarnation, and texts within their bound. */
  predicate Sound(l: Limits, d: SourceDescriptor, incarnation: U64)
  {
    d.id != 0 && incarnation != 0 && Fits(d.name, l.maxStringBytes) && Fits(d.domain, l.maxStringBytes)
  }

  /** The source is known, or there is room for one more. */
  predicate Room(s: RegistryState, l: Limits, d: SourceDescriptor) { d.id in s.sources || |s.sources| < l.maxSources }

  /** A known source has moved on to a later incarnation. */
  predicate Overtaken(s: RegistryState, d: SourceDescriptor, incarnation: U64)
  {
    d.id in s.sources && incarnation < s.sources[d.id].currentIncarnation
  }

  /** The current incarnation of the source has described itself otherwise. */
  predicate Redescribed(s: RegistryState, d: SourceDescriptor, incarnation: U64)
  {
    && d.id in s.sources && incarnation == s.sources[d.id].currentIncarnation
    && s.sources[d.id].described && s.sources[d.id].descriptor != d
  }

  /**
    * An open is accepted if and only if it is sound, the source is known or there is room for it, it
    * has not been overtaken, it does not redescribe the current incarnation, and it can be persisted.
    */
  lemma AcceptedExactly(s: RegistryState, l: Limits, d: SourceDescriptor, incarnation: U64, durable: bool)
    ensures OpenAccepted(OpenAnswer(s, l, d, incarnation, durable)) <==>
            && Sound(l, d, incarnation) && Room(s, l, d) && !Overtaken(s, d, incarnation)
            && !Redescribed(s, d, incarnation) && durable
  {
  }

  /** Why an open is refused. */
  lemma RefusedExactly(s: RegistryState, l: Limits, d: SourceDescriptor, incarnation: U64, durable: bool)
    ensures var a := OpenAnswer(s, l, d, incarnation, durable);
            && (a == OpenInvalid <==> !Sound(l, d, incarnation))
            && (a == OpenCapacity <==> Sound(l, d, incarnation) && !Room(s, l, d))
            && (a == OpenFenced <==> Sound(l, d, incarnation) && Overtaken(s, d, incarnation))
            && (a == OpenDescriptorConflict <==> Sound(l, d, incarnation) && Redescribed(s, d, incarnation))
            && a != OpenClosed
  {
  }

  predicate LiveSession(s: RegistryState, o: Owner) { o in s.sessions && s.sessions[o].live }

  /** What kind of session an accepted open gives, for sources that have been opened before they are known. */
  lemma KindExactly(s: RegistryState, l: Limits, d: SourceDescriptor, incarnation: U64, durable: bool)
    requires CatalogueOk(s) && OpenAccepted(OpenAnswer(s, l, d, incarnation, durable))
    ensures var a, key := OpenAnswer(s, l, d, incarnation, durable), Owner(d.id, incarnation);
            && (a == Opened <==> d.id !in s.sources)
            && (a == NewIncarnation <==> d.id in s.sources && incarnation > s.sources[d.id].currentIncarnation)
            && (a == Resumed <==>
                  d.id in s.sources && incarnation == s.sources[d.id].currentIncarnation && LiveSession(s, key))
            && (a == Reopened <==>
                  d.id in s.sources && incarnation == s.sources[d.id].currentIncarnation && !LiveSession(s, key))
  {
  }

  /** What an accepted open leaves: the descriptor and incarnation it brought, and a live session. */
  lemma OpenLeaves(s: RegistryState, l: Limits, d: SourceDescriptor, incarnation: U64, openedAt: I64, durable: bool)
    requires CatalogueOk(s) && OpenAccepted(OpenAnswer(s, l, d, incarnation, durable))
    ensures var s', key := OpenSession(s, l, d, incarnation, openedAt, durable), Owner(d.id, incarnation);
            && d.id in s'.sources && s'.sources[d.id].descriptor == d && s'.sources[d.id].described
            && s'.sources[d.id].currentIncarnation == incarnation
            && LiveSession(s', key) && !s'.sessions[key].closed
            && s'.sessions[key].openedAt == (if key in s.sessions && s.sessions[key].openedAt != 0
                                             then s.sessions[key].openedAt else openedAt)
            && (forall x :: x != d.id ==> (x in s'.sources <==> x in s.sources))
            && (forall x :: x != d.id && x in s.sources ==> s'.sources[x] == s.sources[x])
            && (forall o :: o != key ==> (o in s'.sessions <==> o in s.sessions))
            && (forall o :: o != key && o in s.sessions ==> s'.sessions[o] == s.sessions[o])
  {
    SourceOpenOk(s, l, d, incarnation, durable);
  }

  /**
    * A source that is known may open its current incarnation again with its own descriptor, as often
    * as it can be persisted: no source record changes, and the session is live afterwards.
    */
  lemma OpenAgain(s: RegistryState, l: Limits, d: SourceDescriptor, incarnation: U64, openedAt: I64)
    requires CatalogueOk(s) && d.id in s.sources && s.sources[d.id].descriptor == d && Sound(l, d, incarnation)
    requires incarnation == s.sources[d.id].currentIncarnation
    ensures var s', key := OpenSession(s, l, d, incarnation, openedAt, true), Owner(d.id, incarnation);
            && OpenAnswer(s, l, d, incarnation, true) == (if LiveSession(s, key) then Resumed else Reopened)
            && s'.sources == s.sources && s'.sessions.Keys == s.sessions.Keys + {key} && LiveSession(s', key)
            && OpenAnswer(s', l, d, incarnation, true) == Resumed
  {
    AcceptedExactly(s, l, d, incarnation, true);
    KindExactly(s, l, d, incarnation, true);
    SourceOpenOk(s, l, d, incarnation, true);
  }

  /** After a restart no session is live, so the next open of a current incarnation is not a resumption. */
  lemma RestartReopens(s: RegistryState, l: Limits, d: SourceDescriptor, incarnation: U64)
    requires CatalogueOk(s) && d.id in s.sources && s.sources[d.id].descriptor == d && Sound(l, d, incarnation)
    requires incarnation == s.sources[d.id].currentIncarnation
    ensures OpenAnswer(ClearVolatile(s), l, d, incarnation, true) == Reopened
  {
    hide ClearTable;
    var t := ClearVolatile(s);
    ClearKeepsSources(s);
    assert !LiveSession(t, Owner(d.id, incarnation));
  }

  /** From the empty registry: an open, the same open again, and again after a restart. */
  lemma ThreeOpens(id: Id, l: Limits, d: SourceDescriptor)
    requires Sound(l, d, 1) && l.maxSources >= 1
    ensures var s1 := OpenSession(EmptyState(id, 0), l, d, 1, 1, true);
            var s2 := OpenSession(s1, l, d, 1, 2, true);
            && OpenAnswer(EmptyState(id, 0), l, d, 1, true) == Opened && OpenAnswer(s1, l, d, 1, true) == Resumed
            && s2.sources == s1.sources && OpenAnswer(ClearVolatile(s2), l, d, 1, true) == Reopened
  {
    hide OpenSession, OpenAnswer;
    var s0 := EmptyState(id, 0);
    AcceptedExactly(s0, l, d, 1, true);
    KindExactly(s0, l, d, 1, true);
    OpenLeaves(s0, l, d, 1, 1, true);
    var s1 := OpenSession(s0, l, d, 1, 1, true);
    CatalogueOpen(s0, l, d, 1, 1, true);
    OpenAgain(s1, l, d, 1, 2);
    CatalogueOpen(s1, l, d, 1, 2, true);
    RestartReopens(OpenSession(s1, l, d, 1, 2, true), l, d, 1);
  }

  /** A close marks its session, when it exists and the mark can be persisted, and touches nothing else. */
  lemma CloseLeaves(s: RegistryState, o: Owner, durable: bool)
    ensures var s' := CloseSession(s, o, durable);
            && s' == s.(sessions := s'.sessions) && s'.sessions.Keys == s.sessions.Keys
            && (forall p :: p in s.sessions && (p != o || !durable) ==> s'.sessions[p] == s.sessions[p])
            && (o in s.sessions && durable ==> s'.sessions[o].closed && !s'.sessions[o].live)
  {
  }
}
