// A registered object whose incarnation falls because the source that carried it opens a session
// of a new incarnation.

module Relapse {
  import opened Words
  import opened Evidence
  import opened Ordering
  import opened State
  import opened Ingest
  import opened Keys
  import Effects
  import opened Sessions
  import opened Falls
  import opened Retirement

  /** A technician registers an object, replaces it, and comes back in a new incarnation. */
  function ReplacedThenReopened(): seq<Event>
  {
    [Opening(TECHNICIAN, 1, 1, true), Ingesting(Spoken(1, FIRST_UNIT), 1, true),
     Ingesting(Spoken(2, SECOND_UNIT), 2, true), Opening(TECHNICIAN, 2, 4, true)]
  }

  lemma TechnicianReturns(s: RegistryState)
    requires OnDuty(s) && s.sources.Keys == {7} && s.sources[7].currentIncarnation == 1
    ensures OpenAccepted(OpenAnswer(s, ROOMY, TECHNICIAN, 2, true))
  {
  }

  lemma TechnicianOnly(s: RegistryState)
    requires s == OpenSession(EmptyState(1, 0), ROOMY, TECHNICIAN, 1, 1, true)
    ensures s.sources.Keys == {7} && s.sources[7].currentIncarnation == 1
  {
  }

  lemma Lowered(s: RegistryState)
    requires OnDuty(s) && s.sources.Keys == {7} && s.sources[7].currentIncarnation == 1
    requires s.reincarnations.Keys == {WORN} && s.reincarnations[WORN].Keys == {Owner(7, 1)}
    requires s.reincarnations[WORN][Owner(7, 1)].value.target == 2
    ensures IncarnationOf(s, WORN) == 2 && IncarnationOf(OpenSession(s, ROOMY, TECHNICIAN, 2, 4, true), WORN) == 1
  {
    hide OpenSession, OpenAnswer, IncarnationOf, Fenced, KnownSession;
    SecondIncarnation(s);
    TechnicianReturns(s);
    assert forall o :: Carries(s, WORN, o, 2) ==> o == Owner(7, 1);
    OpenLowersExactly(s, ROOMY, TECHNICIAN, 2, 4, true, WORN);
  }

  /** The object is at incarnation two, and after the technician's next session at one. */
  lemma RelapseReached()
    ensures IncarnationOf(Run(EmptyState(1, 0), ROOMY, 8, ReplacedThenReopened()[..3]), WORN) == 2
    ensures IncarnationOf(Run(EmptyState(1, 0), ROOMY, 8, ReplacedThenReopened()), WORN) == 1
    ensures ObjectExists(Run(EmptyState(1, 0), ROOMY, 8, ReplacedThenReopened()[..3]), WORN)
  {
    hide IngestRecord, OpenSession, IncarnationOf, OnDuty, ObjectExists;
    var s0, evs := EmptyState(1, 0), ReplacedThenReopened();
    var s1 := OpenSession(s0, ROOMY, TECHNICIAN, 1, 1, true);
    var s2 := IngestRecord(s1, ROOMY, 8, Spoken(1, FIRST_UNIT), 1, true, true).state;
    var s3 := IngestRecord(s2, ROOMY, 8, Spoken(2, SECOND_UNIT), 2, true, true).state;
    TechnicianOpens();
    TechnicianOnly(s1);
    UnitRegistered(s1);
    UnitReplaced(s2);
    Effects.IngestKeepsCatalogue(s1, ROOMY, 8, Spoken(1, FIRST_UNIT), 1, true, true);
    Effects.IngestKeepsCatalogue(s2, ROOMY, 8, Spoken(2, SECOND_UNIT), 2, true, true);
    assert evs[..3][..2] == evs[..2] && evs[..2][..1] == evs[..1] && evs[..1][..0] == [];
    assert Run(s0, ROOMY, 8, evs[..1]) == s1;
    assert Run(s0, ROOMY, 8, evs[..2]) == s2;
    assert Run(s0, ROOMY, 8, evs[..3]) == s3;
    Lowered(s3);
  }
}
