// What a session's counters mean over whole runs: how many of its records were accepted,
// refused and repeated, the highest generation it sent, and the generations it skipped.

module Tallies {
  import opened Words
  import opened Evidence
  import opened State
  import opened Ingest
  import opened Keys
  import opened Effects
  import opened Sessions

  /** A record of the session that reached the decision, and how it was answered. */
  datatype Arrival = Arrival(generation: U64, disposition: Disposition)

  predicate Counted(s: RegistryState, l: Limits, e: Evidence, o: Owner)
  {
    ValidShape(e, l) && KnownSession(s, e) && OwnerOf(e) == o
  }

  /** The arrivals of session o over a run, in order. */
  ghost function Arrivals(s: RegistryState, l: Limits, h: nat, evs: seq<Event>, o: Owner): seq<Arrival>
    decreases |evs|
  {
    if evs == [] then []
    else
      var before, ev := evs[..|evs| - 1], evs[|evs| - 1];
      var t := Run(s, l, h, before);
      Arrivals(s, l, h, before, o) +
      if ev.Ingesting? && Counted(t, l, ev.evidence, o) then
        [Arrival(ev.evidence.header.generation,
                 IngestRecord(t, l, h, ev.evidence, ev.receivedAt, ev.durable, true).disposition)]
      else []
  }

  predicate Uninterrupted(evs: seq<Event>) { forall i :: 0 <= i < |evs| ==> !evs[i].Restarting? }

  // ---- What the counters should say, from the arrivals alone ----

  predicate Taken(a: Arrival) { IsAccepted(a.disposition) }
  predicate Refused(a: Arrival) { !IsAccepted(a.disposition) }
  predicate Repeated(a: Arrival) { a.disposition == DuplicateRecord }

  ghost function HowMany(arrivals: seq<Arrival>, p: Arrival -> bool): nat
  {
    if arrivals == [] then 0
    else HowMany(arrivals[..|arrivals| - 1], p) + if p(arrivals[|arrivals| - 1]) then 1 else 0
  }

  /** g is the highest of the starting mark and everything that arrived. */
  ghost predicate Highest(g: nat, mark: nat, arrivals: seq<Arrival>)
  {
    && g >= mark && (forall i :: 0 <= i < |arrivals| ==> arrivals[i].generation <= g)
    && (g == mark || exists i :: 0 <= i < |arrivals| && arrivals[i].generation == g)
  }

  /** Arrival i is above the mark and everything before it. */
  predicate Advance(mark: nat, arrivals: seq<Arrival>, i: nat)
    requires i < |arrivals|
  {
    arrivals[i].generation > mark && forall j :: 0 <= j < i ==> arrivals[j].generation < arrivals[i].generation
  }

  ghost function Advances(mark: nat, arrivals: seq<Arrival>, n: nat): nat
    requires n <= |arrivals|
  {
    if n == 0 then 0 else Advances(mark, arrivals, n - 1) + if Advance(mark, arrivals, n - 1) then 1 else 0
  }

  /** Where skipped generations start to count: the mark, or below the first generation a fresh session sends. */
  ghost function Origin(mark: nat, arrivals: seq<Arrival>): nat
  {
    if mark != 0 || arrivals == [] then mark
    else if arrivals[0].generation != 0 then arrivals[0].generation - 1
    else Origin(mark, arrivals[1..])
  }

  /** The counters of r are those of r0 and the arrivals since. */
  ghost predicate Tallied(r0: SessionRecord, r: SessionRecord, arrivals: seq<Arrival>)
  {
    && r.accepted == (r0.accepted + HowMany(arrivals, Taken)) % TWO_64
    && r.refused == (r0.refused + HowMany(arrivals, Refused)) % TWO_64
    && r.duplicates == (r0.duplicates + HowMany(arrivals, Repeated)) % TWO_64
    && Highest(r.highWater, r0.highWater, arrivals)
  }

  /** Between the origin and the high-water mark every generation either advanced the session or is missing. */
  ghost predicate Accounted(r0: SessionRecord, r: SessionRecord, arrivals: seq<Arrival>)
  {
    (r.missing - r0.missing) % TWO_64 ==
    (r.highWater - Origin(r0.highWater, arrivals) - Advances(r0.highWater, arrivals, |arrivals|)) % TWO_64
  }

  // ---- One more arrival ----

  lemma OriginGrows(mark: nat, arrivals: seq<Arrival>, a: Arrival)
    ensures Origin(mark, arrivals + [a]) ==
            if mark == 0 && a.generation != 0 && (forall i :: 0 <= i < |arrivals| ==> arrivals[i].generation == 0)
            then a.generation - 1 else Origin(mark, arrivals)
    decreases |arrivals|
  {
    if mark == 0 && arrivals != [] && arrivals[0].generation == 0 {
      OriginGrows(mark, arrivals[1..], a);
      assert (arrivals + [a])[1..] == arrivals[1..] + [a];
      assert arrivals == [arrivals[0]] + arrivals[1..];
    } else if arrivals == [] {
      assert (arrivals + [a])[0] == a;
      assert mark == 0 && a.generation == 0 ==> Origin(mark, (arrivals + [a])[1..]) == 0;
    } else {
      assert (arrivals + [a])[0] == arrivals[0];
    }
  }

  lemma {:induction false} AdvancesGrow(mark: nat, arrivals: seq<Arrival>, a: Arrival, n: nat)
    requires n <= |arrivals|
    ensures Advances(mark, arrivals + [a], n) == Advances(mark, arrivals, n)
  {
    if n > 0 {
      AdvancesGrow(mark, arrivals, a, n - 1);
      assert Advance(mark, arrivals + [a], n - 1) == Advance(mark, arrivals, n - 1) by {
        assert forall j :: 0 <= j < n ==> (arrivals + [a])[j] == arrivals[j];
      }
    }
  }

  lemma NoAdvance(mark: nat, arrivals: seq<Arrival>, n: nat)
    requires n <= |arrivals| && forall i :: 0 <= i < |arrivals| ==> arrivals[i].generation <= mark
    ensures Advances(mark, arrivals, n) == 0
  {
  }

  /** The newcomer advances the session if and only if it is above the high-water mark. */
  lemma NewcomerAdvances(mark: nat, arrivals: seq<Arrival>, a: Arrival, g: nat)
    requires Highest(g, mark, arrivals)
    ensures Advance(mark, arrivals + [a], |arrivals|) <==> a.generation > g
    ensures Highest(if a.generation > g then a.generation else g, mark, arrivals + [a])
  {
    var all := arrivals + [a];
    assert all[|arrivals|] == a && forall i :: 0 <= i < |arrivals| ==> all[i] == arrivals[i];
    if g != mark {
      var i :| 0 <= i < |arrivals| && arrivals[i].generation == g;
      assert all[i].generation == g;
    }
  }

  lemma HowManyGrows(arrivals: seq<Arrival>, a: Arrival, p: Arrival -> bool)
    ensures HowMany(arrivals + [a], p) == HowMany(arrivals, p) + if p(a) then 1 else 0
  {
    var all := arrivals + [a];
    assert all[..|all| - 1] == arrivals && all[|all| - 1] == a;
  }

  lemma Bumped(now: U64, was: U64, n: nat)
    requires now == (was + n) % TWO_64
    ensures (now + 1) % TWO_64 == (was + (n + 1)) % TWO_64
  {
  }

  lemma TallyOne(r0: SessionRecord, r: SessionRecord, arrivals: seq<Arrival>, a: Arrival)
    requires Tallied(r0, r, arrivals)
    ensures Tallied(r0, NoteRecord(r, a.generation, a.disposition), arrivals + [a])
  {
    hide Highest, HowMany;
    HowManyGrows(arrivals, a, Taken);
    HowManyGrows(arrivals, a, Refused);
    HowManyGrows(arrivals, a, Repeated);
    Bumped(r.accepted, r0.accepted, HowMany(arrivals, Taken));
    Bumped(r.refused, r0.refused, HowMany(arrivals, Refused));
    Bumped(r.duplicates, r0.duplicates, HowMany(arrivals, Repeated));
    NewcomerAdvances(r0.highWater, arrivals, a, r.highWater);
  }

  /** Adding to a counter that wraps adds to the difference. */
  lemma Carried(now: U64, was: U64, x: int, gap: nat)
    requires (now - was) % TWO_64 == x % TWO_64
    ensures ((now + gap) % TWO_64 - was) % TWO_64 == (x + gap) % TWO_64
  {
    var k, m := (now - was) / TWO_64, x / TWO_64;
    var q := (now + gap) / TWO_64;
    assert (now + gap) % TWO_64 - was == (x + gap) + (k - m - q) * TWO_64;
    Wraps(x + gap, k - m - q);
  }

  lemma Wraps(x: int, k: int)
    ensures (x + k * TWO_64) % TWO_64 == x % TWO_64
  {
    var q, r := x / TWO_64, x % TWO_64;
    assert x + k * TWO_64 == (q + k) * TWO_64 + r;
  }

  lemma NoOrigin(arrivals: seq<Arrival>)
    requires forall i :: 0 <= i < |arrivals| ==> arrivals[i].generation == 0
    ensures Origin(0, arrivals) == 0
  {
  }

  /** What the newcomer skips. */
  function Gap(highWater: nat, generation: nat): nat
  {
    if generation > highWater && highWater != 0 then generation - highWater - 1 else 0
  }

  /** The generations between origin and mark that advanced nothing grow by what the newcomer skips. */
  lemma SkippedGrows(mark: nat, g: nat, arrivals: seq<Arrival>, a: Arrival)
    requires Highest(g, mark, arrivals)
    ensures var g', all := if a.generation > g then a.generation else g, arrivals + [a];
            g' - Origin(mark, all) - Advances(mark, all, |all|) ==
            g - Origin(mark, arrivals) - Advances(mark, arrivals, |arrivals|) + Gap(g, a.generation)
  {
    AdvancesGrow(mark, arrivals, a, |arrivals|);
    NewcomerAdvances(mark, arrivals, a, g);
    OriginGrows(mark, arrivals, a);
    hide Advance, Origin;
    if g == 0 {
      NoAdvance(mark, arrivals, |arrivals|);
      NoOrigin(arrivals);
    } else if mark == 0 {
      var i :| 0 <= i < |arrivals| && arrivals[i].generation == g;
    }
  }

  lemma AccountOne(r0: SessionRecord, r: SessionRecord, arrivals: seq<Arrival>, a: Arrival)
    requires Highest(r.highWater, r0.highWater, arrivals) && Accounted(r0, r, arrivals)
    ensures Accounted(r0, NoteRecord(r, a.generation, a.disposition), arrivals + [a])
  {
    hide IsAccepted, Highest, Origin, Advances;
    SkippedGrows(r0.highWater, r.highWater, arrivals, a);
    var x := r.highWater - Origin(r0.highWater, arrivals) - Advances(r0.highWater, arrivals, |arrivals|);
    Carried(r.missing, r0.missing, x, Gap(r.highWater, a.generation));
  }

  // ---- One event ----

  predicate SameTally(a: SessionRecord, b: SessionRecord)
  {
    && a.accepted == b.accepted && a.refused == b.refused && a.duplicates == b.duplicates
    && a.highWater == b.highWater && a.missing == b.missing
  }

  lemma SessionEventTally(s: RegistryState, l: Limits, h: nat, ev: Event, o: Owner)
    requires o in s.sessions && (ev.Opening? || ev.Closing?)
    ensures var s' := Step(s, l, h, ev);
            o in s'.sessions && SameTally(s'.sessions[o], s.sessions[o])
  {
    hide OpenAnswer, IngestRecord;
  }

  lemma EventTally(s: RegistryState, l: Limits, h: nat, ev: Event, o: Owner)
    requires o in s.sessions && !ev.Restarting?
    ensures var s' := Step(s, l, h, ev);
            o in s'.sessions &&
            if ev.Ingesting? && Counted(s, l, ev.evidence, o) then
              s'.sessions[o] ==
              NoteRecord(s.sessions[o], ev.evidence.header.generation,
                         IngestRecord(s, l, h, ev.evidence, ev.receivedAt, ev.durable, true).disposition)
            else SameTally(s'.sessions[o], s.sessions[o])
  {
    hide ValidShape, IngestRecord, NoteRecord, OpenSession, CloseSession;
    if ev.Ingesting? {
      RecordTally(s, l, h, ev.evidence, ev.receivedAt, ev.durable);
    } else {
      SessionEventTally(s, l, h, ev, o);
    }
  }

  lemma RecordTally(s: RegistryState, l: Limits, h: nat, e: Evidence, receivedAt: I64, durable: bool)
    ensures var r := IngestRecord(s, l, h, e, receivedAt, durable, true);
            r.state.sessions ==
            if ValidShape(e, l) && KnownSession(s, e) then
              s.sessions[OwnerOf(e) := NoteRecord(s.sessions[OwnerOf(e)], e.header.generation, r.disposition)]
            else s.sessions
  {
    hide Decide, WriteClaims, RingClaims, ValidShape, NoteRecord;
    if ValidShape(e, l) && KnownSession(s, e) {
      var staged := Decide(s, l, e, MetaOf(s, e, receivedAt, true)).staged;
      var s1 := RingClaims(s, staged.rings, staged.meta, h);
      ClaimsKeepCatalogue(s, staged.rings, staged.meta, h);
      ClaimsKeepCatalogue(s1, staged.writes, staged.meta, h);
    }
  }

  // ---- Runs ----

  /**
    * Over every run without a restart the counters of a session are what arrived for it: accepted,
    * refused and repeated records are counted, the high-water mark is the highest generation seen,
    * and every generation up to it either advanced the session when it came or is counted missing.
    */
  lemma {:induction false} SessionTallied(s: RegistryState, l: Limits, h: nat, evs: seq<Event>, o: Owner)
    requires o in s.sessions && Uninterrupted(evs)
    ensures var t := Run(s, l, h, evs);
            && o in t.sessions && Tallied(s.sessions[o], t.sessions[o], Arrivals(s, l, h, evs, o))
            && Accounted(s.sessions[o], t.sessions[o], Arrivals(s, l, h, evs, o))
    decreases |evs|
  {
    hide Step, IngestRecord, NoteRecord, Counted, IsAccepted;
    if evs != [] {
      var before, ev := evs[..|evs| - 1], evs[|evs| - 1];
      SessionTallied(s, l, h, before, o);
      var t := Run(s, l, h, before);
      EventTally(t, l, h, ev, o);
      var arrivals := Arrivals(s, l, h, before, o);
      if ev.Ingesting? && Counted(t, l, ev.evidence, o) {
        var d := IngestRecord(t, l, h, ev.evidence, ev.receivedAt, ev.durable, true).disposition;
        var a := Arrival(ev.evidence.header.generation, d);
        TallyOne(s.sessions[o], t.sessions[o], arrivals, a);
        AccountOne(s.sessions[o], t.sessions[o], arrivals, a);
      } else {
        assert arrivals + [] == arrivals;
      }
    } else {
      assert Origin(s.sessions[o].highWater, []) == s.sessions[o].highWater;
    }
  }

  /**
    * A generation that arrives late stays counted as missing: of 1, 3, 2 nothing is missing in the
    * end, yet the counter says one.
    */
  lemma LateStaysMissing(r0: SessionRecord, x: Disposition, y: Disposition, z: Disposition)
    requires r0.highWater == 0 && r0.missing == 0
    ensures NoteRecord(NoteRecord(NoteRecord(r0, 1, x), 3, y), 2, z).missing == 1
  {
    hide IsAccepted;
  }
}
