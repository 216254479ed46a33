// Confluence: the state after delivering a set of records does not depend on the order in
// which they arrive, on how often each one arrives, or on when.

module Confluence {
  import opened Words
  import opened Evidence
  import opened Ordering
  import opened State
  import opened Fold
  import opened Lifecycle
  import opened Ingest
  import opened Keys
  import opened Effects
  import opened Congruence
  import opened Snapshot
  import opened Rings
  import opened Bounds
  import Sessions

  /** One arrival of a record. */
  datatype Delivery = Delivery(record: Evidence, receivedAt: I64, live: bool)

  ghost function Deliver(s: RegistryState, l: Limits, h: nat, q: seq<Delivery>): RegistryState
    decreases |q|
  {
    if q == [] then s
    else
      var d := q[|q| - 1];
      IngestRecord(Deliver(s, l, h, q[..|q| - 1]), l, h, d.record, d.receivedAt, true, d.live).state
  }

  function Records(q: seq<Delivery>): set<Evidence> { set d | d in q :: d.record }

  /** No arrival is refused. */
  ghost predicate AllWelcome(s: RegistryState, l: Limits, h: nat, q: seq<Delivery>)
    decreases |q|
  {
    q == [] ||
    (var init, d := q[..|q| - 1], q[|q| - 1];
     AllWelcome(s, l, h, init)
     && IsAccepted(IngestRecord(Deliver(s, l, h, init), l, h, d.record, d.receivedAt, true, d.live).disposition))
  }

  // ---- What a well-behaved set of records looks like ----

  predicate DifferentFrom(a: Evidence, b: Evidence)
  {
    OwnerOf(a) == OwnerOf(b) && a != b ==> a.header.generation != b.header.generation && a.header.id != b.header.id
  }

  /** Reincarnations of one object come from one owner, and their targets grow with the generation. */
  predicate Ladder(a: Evidence, b: Evidence)
  {
    a.payload.ReincarnateObject? && b.payload.ReincarnateObject? && a.payload.objectId == b.payload.objectId ==>
      OwnerOf(a) == OwnerOf(b) &&
      (a.header.generation < b.header.generation ==>
        TargetOf(a.payload.fromIncarnation) < TargetOf(b.payload.fromIncarnation))
  }

  ghost predicate WellBehaved(records: set<Evidence>)
  {
    && (forall a, b :: a in records && b in records ==> DifferentFrom(a, b) && Ladder(a, b))
    && (forall a :: a in records && a.payload.ReincarnateObject? ==> TargetOf(a.payload.fromIncarnation) >= 2)
  }

  // ---- What a key holds after a set of records ----

  function ClaimAt(e: Evidence, k: Key): Option<Claim> { Find(ClaimsOf(e), OwnerOf(e), k) }

  ghost function Touching(records: set<Evidence>, k: Key): set<Evidence>
  {
    set e | e in records && ClaimAt(e, k).Some?
  }

  function GenerationOf(e: Evidence): int { e.header.generation }

  /** The record with the highest generation. */
  ghost function Winner(records: set<Evidence>): (w: Evidence)
    requires records != {}
    ensures w in records && forall e :: e in records ==> e.header.generation <= w.header.generation
  {
    Greatest(records, GenerationOf)
  }

  /** A record's attestation, whenever it is received; the authority is the source's. */
  function Attested(sources: map<Id, SourceRecord>, e: Evidence): Attestation
  {
    Attestation(OwnerOf(e), e.header.generation, e.header.id, e.header.observedAt, 0, e.header.provenance,
                if e.header.source in sources then sources[e.header.source].descriptor.authority
                  else Authority(Speculative, 0),
                EvidenceIncarnation(e.payload), false)
  }

  ghost function AttestedAll(sources: map<Id, SourceRecord>, records: set<Evidence>): set<Attestation>
  {
    set e | e in records :: Attested(sources, e)
  }

  /**
    * The key holds the record of the highest generation among those that touch it, and its
    * ring holds exactly the h newest of the others.
    */
  ghost predicate Holds(f: Option<Folded<Claim>>, sources: map<Id, SourceRecord>, records: set<Evidence>, k: Key,
                        h: nat)
  {
    var t := Touching(records, k);
    if t == {} then f.None?
    else
      var w := Winner(t);
      && f.Some? && EraseMeta(Timeless, f.value.meta) == Attested(sources, w)
      && Some(f.value.value) == ClaimAt(w, k)
      && IsTop(EraseMetas(Timeless, f.value.superseded), AttestedAll(sources, t - {w}), h)
  }

  // ---- One record at one key ----

  lemma OwnsKey(e: Evidence, k: Key)
    requires ClaimAt(e, k).Some?
    ensures KeyOwner(k) == OwnerOf(e)
    ensures KeyOf(ClaimAt(e, k).value, OwnerOf(e)) == k
  {
  }

  lemma TouchingDistinct(records: set<Evidence>, k: Key, a: Evidence, b: Evidence)
    requires WellBehaved(records) && a in Touching(records, k) && b in Touching(records, k)
    ensures a == b || (a.header.generation != b.header.generation && a.header.id != b.header.id)
  {
    OwnsKey(a, k);
    OwnsKey(b, k);
    assert DifferentFrom(a, b);
  }

  lemma Rank64(g: U64, i: Id, g': U64, i': Id)
    requires g * TWO_128 + i == g' * TWO_128 + i'
    ensures g == g' && i == i'
  {
  }

  lemma AttestedUntied(sources: map<Id, SourceRecord>, records: set<Evidence>, k: Key)
    requires WellBehaved(records)
    ensures Untied(AttestedAll(sources, Touching(records, k)))
  {
    hide WellBehaved;
    forall a, b | a in Touching(records, k) && b in Touching(records, k)
      && RingRank(Attested(sources, a)) == RingRank(Attested(sources, b))
      ensures a == b
    {
      Rank64(a.header.generation, a.header.id, b.header.generation, b.header.id);
      TouchingDistinct(records, k, a, b);
    }
  }

  lemma MetaErased(s: RegistryState, e: Evidence, receivedAt: I64, live: bool)
    requires e.header.source in s.sources
    ensures EraseMeta(Timeless, MetaOf(s, e, receivedAt, live)) == Attested(s.sources, e)
  {
  }

  lemma CitesErased(ring: seq<Attestation>, evidence: Id)
    ensures Cites(EraseMetas(Timeless, ring), evidence) == Cites(ring, evidence)
  {
    if Cites(ring, evidence) {
      var i :| 0 <= i < |ring| && ring[i].evidence == evidence;
      assert EraseMetas(Timeless, ring)[i].evidence == evidence;
    }
    if Cites(EraseMetas(Timeless, ring), evidence) {
      var i :| 0 <= i < |ring| && EraseMetas(Timeless, ring)[i].evidence == evidence;
      assert ring[i].evidence == evidence;
    }
  }

  /** Trimming the ring reads nothing that is erased. */
  lemma RetainErased(ring: seq<Attestation>, dropped: U32, dropped': U32, h: nat)
    ensures EraseMetas(Timeless, Retain(ring, dropped, h).entries) ==
            Retain(EraseMetas(Timeless, ring), dropped', h).entries
  {
    hide SortBy;
    EraseSort(Timeless, ring, RingRank);
    var r := SortBy(ring, RingRank);
    if |r| > h {
      assert EraseMetas(Timeless, r[|r| - h..]) == EraseMetas(Timeless, r)[|r| - h..];
    }
  }

  /** A record enters the ring of a key, in a ring that is the newest of the losers. */
  lemma EnterRing(sources: map<Id, SourceRecord>, losers: set<Evidence>, m: Evidence, ring: seq<Attestation>,
                  meta: Attestation, dropped: U32, h: nat)
    requires EraseMeta(Timeless, meta) == Attested(sources, m)
    requires IsTop(EraseMetas(Timeless, ring), AttestedAll(sources, losers), h)
    requires Untied(AttestedAll(sources, losers + {m}))
    requires forall e :: e in losers && e != m ==> e.header.id != m.header.id
    ensures var r := if Cites(ring, meta.evidence) then ring else Retain(ring + [meta], dropped, h).entries;
            IsTop(EraseMetas(Timeless, r), AttestedAll(sources, losers + {m}), h)
  {
    hide Retain, IsTop;
    var erased, a := EraseMetas(Timeless, ring), Attested(sources, m);
    var all := AttestedAll(sources, losers);
    assert AttestedAll(sources, losers + {m}) == all + {a};
    assert meta.evidence == a.evidence;
    CitesErased(ring, meta.evidence);
    if Cites(ring, meta.evidence) {
      var i :| 0 <= i < |erased| && erased[i].evidence == m.header.id;
      assert erased[i] in erased;
      TopElement(erased, all, h, erased[i]);
      var e :| e in losers && Attested(sources, e) == erased[i];
      assert e == m;
      TopAgain(erased, all, a, h);
    } else {
      RetainErased(ring + [meta], dropped, dropped, h);
      EraseAppend(Timeless, ring, meta);
      assert a !in erased;
      TopAdd(erased, all, a, dropped, h);
    }
  }

  lemma TopElement(ring: seq<Attestation>, losers: set<Attestation>, h: nat, m: Attestation)
    requires IsTop(ring, losers, h) && m in ring
    ensures m in losers
  {
    assert m in Elements(ring);
  }

  lemma WinnerUnique(records: set<Evidence>, k: Key, w: Evidence)
    requires WellBehaved(records) && w in Touching(records, k)
    requires forall e :: e in Touching(records, k) ==> e.header.generation <= w.header.generation
    ensures Winner(Touching(records, k)) == w
  {
    hide WellBehaved, Touching;
    TouchingDistinct(records, k, w, Winner(Touching(records, k)));
  }

  lemma TouchingAdd(records: set<Evidence>, e: Evidence, k: Key)
    ensures Touching(records + {e}, k) == if ClaimAt(e, k).Some? then Touching(records, k) + {e}
            else Touching(records, k)
  {
  }

  lemma SmallerBehaved(records: set<Evidence>, part: set<Evidence>)
    requires WellBehaved(records) && part <= records
    ensures WellBehaved(part)
  {
    hide DifferentFrom, Ladder;
  }

  /** The first record takes the key. */
  lemma FirstTakes(sources: map<Id, SourceRecord>, records: set<Evidence>, e: Evidence, k: Key, meta: Attestation,
                   h: nat)
    requires WellBehaved(records + {e}) && ClaimAt(e, k).Some? && Touching(records, k) == {}
    requires EraseMeta(Timeless, meta) == Attested(sources, e)
    ensures Holds(WinAt(None, meta, ClaimAt(e, k).value, h), sources, records + {e}, k, h)
  {
    hide WellBehaved, ClaimAt, IsTop, Touching;
    TouchingAdd(records, e, k);
    var t := Touching(records + {e}, k);
    assert t == {e};
    assert Winner(t) == e;
    assert t - {e} == {};
    TopEmpty(h);
    assert WinAt(None, meta, ClaimAt(e, k).value, h) == Some(Folded(meta, ClaimAt(e, k).value, [], 0));
    assert EraseMetas(Timeless, []) == [];
    assert AttestedAll(sources, {}) == {};
  }

  /** A newer record takes the key from the winner. */
  lemma NewerTakes(f: Folded<Claim>, sources: map<Id, SourceRecord>, records: set<Evidence>, e: Evidence, k: Key,
                   meta: Attestation, h: nat)
    requires WellBehaved(records + {e}) && ClaimAt(e, k).Some? && Holds(Some(f), sources, records, k, h)
    requires EraseMeta(Timeless, meta) == Attested(sources, e) && meta.generation > f.meta.generation
    ensures Holds(WinAt(Some(f), meta, ClaimAt(e, k).value, h), sources, records + {e}, k, h)
  {
    hide WellBehaved, ClaimAt, IsTop, Retain;
    var t := Touching(records, k);
    var w := Winner(t);
    assert w.header.generation == Attested(sources, w).generation == EraseMeta(Timeless, f.meta).generation;
    assert e.header.generation == Attested(sources, e).generation == EraseMeta(Timeless, meta).generation;
    TouchingAdd(records, e, k);
    var t' := Touching(records + {e}, k);
    assert e !in t;
    assert t' == t + {e} && t' - {e} == (t - {w}) + {w};
    WinnerUnique(records + {e}, k, e);
    NotCited(sources, records + {e}, k, t - {w}, w, f.superseded, h);
    LoserEnters(sources, records + {e}, k, t - {w}, w, f.superseded, f.meta, f.dropped, h);
  }

  /** An older record goes to the ring. */
  lemma OlderLoses(f: Folded<Claim>, sources: map<Id, SourceRecord>, records: set<Evidence>, e: Evidence, k: Key,
                   meta: Attestation, h: nat)
    requires WellBehaved(records + {e}) && ClaimAt(e, k).Some? && Holds(Some(f), sources, records, k, h)
    requires EraseMeta(Timeless, meta) == Attested(sources, e) && meta.generation < f.meta.generation
    ensures Holds(LoseAt(Some(f), meta, h), sources, records + {e}, k, h)
  {
    hide WellBehaved, ClaimAt, IsTop, Retain;
    var t := Touching(records, k);
    var w := Winner(t);
    assert w.header.generation == Attested(sources, w).generation == EraseMeta(Timeless, f.meta).generation;
    assert e.header.generation == Attested(sources, e).generation == EraseMeta(Timeless, meta).generation;
    assert w.header.id == Attested(sources, w).evidence == EraseMeta(Timeless, f.meta).evidence;
    assert e.header.id == Attested(sources, e).evidence == EraseMeta(Timeless, meta).evidence;
    TouchingAdd(records, e, k);
    var t' := Touching(records + {e}, k);
    assert t' == t + {e} && t' - {w} == (t - {w}) + {e};
    WinnerUnique(records + {e}, k, w);
    TouchingDistinct(records + {e}, k, e, w);
    assert f.meta.evidence != meta.evidence;
    LoserEnters(sources, records + {e}, k, t - {w}, e, f.superseded, meta, f.dropped, h);
  }

  lemma NotCited(sources: map<Id, SourceRecord>, records: set<Evidence>, k: Key, losers: set<Evidence>, w: Evidence,
                 ring: seq<Attestation>, h: nat)
    requires WellBehaved(records) && losers + {w} <= Touching(records, k) && w !in losers
    requires IsTop(EraseMetas(Timeless, ring), AttestedAll(sources, losers), h)
    ensures !Cites(ring, w.header.id)
  {
    hide WellBehaved, IsTop, Touching;
    var erased := EraseMetas(Timeless, ring);
    CitesErased(ring, w.header.id);
    if i :| 0 <= i < |erased| && erased[i].evidence == w.header.id {
      TopElement(erased, AttestedAll(sources, losers), h, erased[i]);
      var e :| e in losers && Attested(sources, e) == erased[i];
      TouchingDistinct(records, k, e, w);
      assert false;
    }
  }

  lemma LoserEnters(sources: map<Id, SourceRecord>, records: set<Evidence>, k: Key, losers: set<Evidence>, m: Evidence,
                    ring: seq<Attestation>, meta: Attestation, dropped: U32, h: nat)
    requires WellBehaved(records) && losers + {m} <= Touching(records, k)
    requires EraseMeta(Timeless, meta) == Attested(sources, m)
    requires IsTop(EraseMetas(Timeless, ring), AttestedAll(sources, losers), h)
    ensures var r := if Cites(ring, meta.evidence) then ring else Retain(ring + [meta], dropped, h).entries;
            IsTop(EraseMetas(Timeless, r), AttestedAll(sources, losers + {m}), h)
  {
    hide WellBehaved, IsTop, Retain, Touching, Cites;
    AttestedUntied(sources, records, k);
    assert AttestedAll(sources, losers + {m}) <= AttestedAll(sources, Touching(records, k));
    forall e | e in losers && e != m
      ensures e.header.id != m.header.id
    {
      TouchingDistinct(records, k, e, m);
    }
    EnterRing(sources, losers, m, ring, meta, dropped, h);
  }

  /** The winner again: nothing changes. */
  lemma AgainHolds(f: Option<Folded<Claim>>, sources: map<Id, SourceRecord>, records: set<Evidence>, e: Evidence,
                   k: Key, h: nat)
    requires Holds(f, sources, records, k, h)
    requires ClaimAt(e, k).None? || e in records
    ensures Holds(f, sources, records + {e}, k, h)
  {
    hide ClaimAt, IsTop;
    TouchingAdd(records, e, k);
    assert Touching(records + {e}, k) == Touching(records, k);
  }

  // ---- One record at every key ----

  lemma AllDuplicate(s: RegistryState, l: Limits, e: Evidence, meta: Attestation, c: Claim)
    requires IsAccepted(Decide(s, l, e, meta).disposition) && !Decide(s, l, e, meta).staged.apply && c in ClaimsOf(e)
    ensures OutcomeOf(s, c, meta) == Duplicate
  {
    hide OutcomeOf, PortCapacityReached, IncarnationOf, PortExists, Fenced, ObjectExists, LabelConflict, TargetOf;
    if e.payload.Attach? || e.payload.Detach? || e.payload.Move? {
      NothingStaged(s, l, e, meta, c);
    } else {
      assert ClaimsOf(e) == [c];
    }
  }

  lemma NothingStaged(s: RegistryState, l: Limits, e: Evidence, meta: Attestation, c: Claim)
    requires e.payload.Attach? || e.payload.Detach? || e.payload.Move?
    requires IsAccepted(DecidePlacement(s, l, e, meta).disposition) && !DecidePlacement(s, l, e, meta).staged.apply
            && c in ClaimsOf(e)
    ensures OutcomeOf(s, c, meta) == Duplicate
  {
    hide OutcomeOf, PortCapacityReached, IncarnationOf, PortExists, Fenced, ObjectExists, ClaimsOf;
    assert c !in Select(s, ClaimsOf(e), meta, Insert);
    assert c !in Select(s, ClaimsOf(e), meta, Superseded);
  }

  /** A record that is not refused is known, and resolves each of its keys on its own. */
  lemma WelcomeEffect(s: RegistryState, l: Limits, h: nat, d: Delivery, k: Key)
    requires IsAccepted(IngestRecord(s, l, h, d.record, d.receivedAt, true, d.live).disposition)
    ensures KnownSession(s, d.record)
    ensures var s' := IngestRecord(s, l, h, d.record, d.receivedAt, true, d.live).state;
            var c := ClaimAt(d.record, k);
            At(s', k) == if c.Some? then After(s, d.record, c.value, MetaOf(s, d.record, d.receivedAt, d.live), h)
              else At(s, k)
  {
    hide Decide, ApplyChange, ValidShape, ClaimsOf, Find, NoteRecord, At, OutcomeOf, WinAt, LoseAt;
    IngestAt(s, l, h, d.record, d.receivedAt, true, d.live, k);
    var c := ClaimAt(d.record, k);
    if c.Some? && !Applied(s, l, d.record, d.receivedAt, true, d.live) {
      AllDuplicate(s, l, d.record, MetaOf(s, d.record, d.receivedAt, d.live), c.value);
    }
  }

  /** Every key holds what the delivered records make it hold. */
  ghost predicate AllHold(s: RegistryState, records: set<Evidence>, h: nat)
  {
    forall k :: Holds(At(s, k), s.sources, records, k, h)
  }

  lemma ReincarnationAt(s: RegistryState, x: Id, o: Owner)
    ensures Has(s.reincarnations, x, o) <==> At(s, ReincarnationKey(x, o)).Some?
    ensures Has(s.reincarnations, x, o) ==>
            At(s, ReincarnationKey(x, o)).value.value == ReincarnationClaim(x, s.reincarnations[x][o].value)
  {
  }

  lemma ReincarnationClaimed(e: Evidence, x: Id, o: Owner)
    requires ClaimAt(e, ReincarnationKey(x, o)).Some?
    ensures e.payload.ReincarnateObject? && e.payload.objectId == x && OwnerOf(e) == o
    ensures ClaimAt(e, ReincarnationKey(x, o)).value.reincarnation.target == TargetOf(e.payload.fromIncarnation)
  {
  }

  /** The stored targets of an object all come from delivered reincarnations of it. */
  lemma TargetDelivered(s: RegistryState, records: set<Evidence>, h: nat, x: Id, o: Owner)
    requires AllHold(s, records, h) && Has(s.reincarnations, x, o)
    ensures var t := Touching(records, ReincarnationKey(x, o));
            t != {} && var w := Winner(t);
            w.payload.ReincarnateObject? && w.payload.objectId == x && OwnerOf(w) == o
            && s.reincarnations[x][o].value.target == TargetOf(w.payload.fromIncarnation)
  {
    hide At, ClaimAt, IsTop;
    var k := ReincarnationKey(x, o);
    ReincarnationAt(s, x, o);
    assert Holds(At(s, k), s.sources, records, k, h);
    var w := Winner(Touching(records, k));
    ReincarnationClaimed(w, x, o);
  }

  /** A well-behaved reincarnation that is new to its key raises the incarnation. */
  lemma NewTargetRises(s: RegistryState, records: set<Evidence>, h: nat, e: Evidence)
    requires AllHold(s, records, h) && WellBehaved(records + {e}) && e.payload.ReincarnateObject?
    requires var t := Touching(records, ReincarnationKey(e.payload.objectId, OwnerOf(e)));
             t == {} || Winner(t).header.generation < e.header.generation
    ensures TargetOf(e.payload.fromIncarnation) > IncarnationOf(s, e.payload.objectId)
  {
    hide AllHold, Touching, TargetOf;
    var x := e.payload.objectId;
    forall o | Has(s.reincarnations, x, o)
      ensures s.reincarnations[x][o].value.target < TargetOf(e.payload.fromIncarnation)
    {
      TargetDelivered(s, records, h, x, o);
      var w := Winner(Touching(records, ReincarnationKey(x, o)));
      WinnerDelivered(records, ReincarnationKey(x, o));
      assert Ladder(w, e);
    }
    assert TargetOf(e.payload.fromIncarnation) >= 2;
    forall g | g in LiveTargets(s, x)
      ensures g < TargetOf(e.payload.fromIncarnation)
    {
      var o :| o in Group(s.reincarnations, x) && Group(s.reincarnations, x)[o].value.target == g;
      assert Has(s.reincarnations, x, o);
    }
  }

  lemma WinnerDelivered(records: set<Evidence>, k: Key)
    requires Touching(records, k) != {}
    ensures Winner(Touching(records, k)) in records
  {
  }

  lemma MatchesWinner(s: RegistryState, records: set<Evidence>, h: nat, e: Evidence, k: Key, meta: Attestation)
    requires Holds(At(s, k), s.sources, records, k, h) && WellBehaved(records + {e}) && ClaimAt(e, k).Some?
    requires EraseMeta(Timeless, meta) == Attested(s.sources, e)
    requires At(s, k).Some? && At(s, k).value.meta.generation == meta.generation
    ensures e in records && At(s, k).value.value == ClaimAt(e, k).value
  {
    hide At, ClaimAt, IsTop, WellBehaved;
    var w := Winner(Touching(records, k));
    WinnerDelivered(records, k);
    assert meta.generation == EraseMeta(Timeless, meta).generation;
    assert At(s, k).value.meta.generation == EraseMeta(Timeless, At(s, k).value.meta).generation;
    TouchingAdd(records, e, k);
    TouchingDistinct(records + {e}, k, w, e);
  }

  /** One welcome record keeps one key as the records make it. */
  lemma KeyStep(s: RegistryState, l: Limits, h: nat, records: set<Evidence>, d: Delivery, k: Key)
    requires AllHold(s, records, h) && WellBehaved(records + {d.record})
    requires IsAccepted(IngestRecord(s, l, h, d.record, d.receivedAt, true, d.live).disposition)
    ensures var s' := IngestRecord(s, l, h, d.record, d.receivedAt, true, d.live).state;
            Holds(At(s', k), s.sources, records + {d.record}, k, h)
  {
    hide IngestRecord, At, ClaimAt, OutcomeOf, WellBehaved, Holds, WinAt, LoseAt, IncarnationOf, ObjectExists,
         TargetOf, KeyOf;
    var e := d.record;
    WelcomeEffect(s, l, h, d, k);
    assert Holds(At(s, k), s.sources, records, k, h);
    var meta := MetaOf(s, e, d.receivedAt, d.live);
    MetaErased(s, e, d.receivedAt, d.live);
    if ClaimAt(e, k).None? {
      AgainHolds(At(s, k), s.sources, records, e, k, h);
    } else {
      var c := ClaimAt(e, k).value;
      OwnsKey(e, k);
      OutcomeByKey(s, c, meta);
      if At(s, k).Some? && At(s, k).value.meta.generation == meta.generation {
        MatchesWinner(s, records, h, e, k, meta);
        AgainHolds(At(s, k), s.sources, records, e, k, h);
      } else {
        HeldOrFree(s, records, h, k);
        if At(s, k).Some? && meta.generation < At(s, k).value.meta.generation {
          OlderLoses(At(s, k).value, s.sources, records, e, k, meta, h);
        } else {
          FreshNotStale(s, records, h, e, k, meta);
          if At(s, k).None? {
            FirstTakes(s.sources, records, e, k, meta, h);
          } else {
            NewerTakes(At(s, k).value, s.sources, records, e, k, meta, h);
          }
        }
      }
    }
  }

  lemma HeldOrFree(s: RegistryState, records: set<Evidence>, h: nat, k: Key)
    requires Holds(At(s, k), s.sources, records, k, h)
    ensures At(s, k).None? <==> Touching(records, k) == {}
    ensures At(s, k).Some? ==> Winner(Touching(records, k)).header.generation == At(s, k).value.meta.generation
  {
    hide At, Touching, IsTop, ClaimAt;
    if At(s, k).Some? {
      assert At(s, k).value.meta.generation == EraseMeta(Timeless, At(s, k).value.meta).generation;
    }
  }

  lemma FreshNotStale(s: RegistryState, records: set<Evidence>, h: nat, e: Evidence, k: Key, meta: Attestation)
    requires AllHold(s, records, h) && WellBehaved(records + {e}) && ClaimAt(e, k).Some?
    requires meta.generation == e.header.generation
    requires At(s, k).None? || At(s, k).value.meta.generation < meta.generation
    ensures !Stale(s, e)
  {
    hide At, WellBehaved, Holds, IncarnationOf, ObjectExists, TargetOf;
    if e.payload.ReincarnateObject? {
      assert k == ReincarnationKey(e.payload.objectId, OwnerOf(e));
      assert Holds(At(s, k), s.sources, records, k, h);
      HeldOrFree(s, records, h, k);
      NewTargetRises(s, records, h, e);
    }
  }

  lemma {:induction false} DeliverHolds(s: RegistryState, l: Limits, h: nat, q: seq<Delivery>)
    requires AllHold(s, {}, h) && AllWelcome(s, l, h, q) && WellBehaved(Records(q))
    ensures AllHold(Deliver(s, l, h, q), Records(q), h)
    ensures Deliver(s, l, h, q).sources == s.sources && Deliver(s, l, h, q).sessions.Keys == s.sessions.Keys
    decreases |q|
  {
    hide IngestRecord, Holds, At, WellBehaved;
    if q == [] {
      assert Records(q) == {};
    } else {
      var init, d := q[..|q| - 1], q[|q| - 1];
      assert q == init + [d];
      assert Records(q) == Records(init) + {d.record};
      SmallerBehaved(Records(q), Records(init));
      DeliverHolds(s, l, h, init);
      var t := Deliver(s, l, h, init);
      IngestKeepsCatalogue(t, l, h, d.record, d.receivedAt, true, d.live);
      forall k
        ensures Holds(At(Deliver(s, l, h, q), k), s.sources, Records(q), k, h)
      {
        KeyStep(t, l, h, Records(init), d, k);
      }
    }
  }

  lemma {:induction false} DeliverShape(s: RegistryState, l: Limits, h: nat, q: seq<Delivery>)
    requires ShapeOk(s)
    ensures ShapeOk(Deliver(s, l, h, q))
    decreases |q|
  {
    hide IngestRecord, ShapeOk;
    if q != [] {
      var d := q[|q| - 1];
      DeliverShape(s, l, h, q[..|q| - 1]);
      ShapeIngest(Deliver(s, l, h, q[..|q| - 1]), l, h, d.record, d.receivedAt, true, d.live);
    }
  }

  // ---- From keys to tables ----

  ghost predicate SameCell<V>(f: Option<Folded<V>>, g: Option<Folded<V>>)
  {
    f.Some? == g.Some? && (f.Some? ==> CanonFolded(f.value) == CanonFolded(g.value))
  }

  /** What a key holds is determined by the records, up to receive times, lifetime flags and overflow counts. */
  lemma HoldsUnique(f: Option<Folded<Claim>>, g: Option<Folded<Claim>>, sources: map<Id, SourceRecord>,
                    records: set<Evidence>, k: Key, h: nat)
    requires Holds(f, sources, records, k, h) && Holds(g, sources, records, k, h)
    ensures SameCell(f, g)
  {
    hide IsTop, ClaimAt, Touching, EraseMetas;
    var t := Touching(records, k);
    if t != {} {
      var w := Winner(t);
      TopUnique(EraseMetas(Timeless, f.value.superseded), EraseMetas(Timeless, g.value.superseded),
        AttestedAll(sources, t - {w}), h);
    }
  }

  lemma TablesFromCells<P(!new), K(!new), V>(a: Table<P, K, V>, b: Table<P, K, V>)
    requires NoEmptyGroup(a) && NoEmptyGroup(b)
    requires forall p, k :: SameCell(Cell(a, p, k), Cell(b, p, k))
    ensures CanonTable(a) == CanonTable(b)
  {
    hide CanonFolded;
    CellsWithin(a, b);
    CellsWithin(b, a);
    assert a.Keys == b.Keys;
    forall p | p in a
      ensures CanonGroup(a[p]) == CanonGroup(b[p])
    {
      forall k
        ensures k in a[p] <==> k in b[p]
        ensures k in a[p] ==> CanonFolded(a[p][k]) == CanonFolded(b[p][k])
      {
        assert SameCell(Cell(a, p, k), Cell(b, p, k));
      }
      assert CanonGroup(a[p]).Keys == CanonGroup(b[p]).Keys;
    }
    assert CanonTable(a).Keys == CanonTable(b).Keys;
  }

  lemma CellsWithin<P(!new), K(!new), V>(a: Table<P, K, V>, b: Table<P, K, V>)
    requires NoEmptyGroup(a)
    requires forall p, k :: SameCell(Cell(a, p, k), Cell(b, p, k)) || SameCell(Cell(b, p, k), Cell(a, p, k))
    ensures a.Keys <= b.Keys
  {
    hide CanonFolded;
    forall p | p in a
      ensures p in b
    {
      assert a[p] != map[];
      EmptyGroup(a[p]);
      var k :| k in a[p].Keys;
      assert Cell(a, p, k).Some?;
      assert SameCell(Cell(a, p, k), Cell(b, p, k)) || SameCell(Cell(b, p, k), Cell(a, p, k));
    }
  }

  lemma Unlift<V>(f: Option<Folded<V>>, g: Option<Folded<V>>, claim: V -> Claim)
    requires SameCell(Lift(f, claim), Lift(g, claim)) && forall v, w :: claim(v) == claim(w) ==> v == w
    ensures SameCell(f, g)
  {
    if f.Some? {
      var a, b := CanonFolded(Lift(f, claim).value), CanonFolded(Lift(g, claim).value);
      assert a.meta == b.meta && a.value == b.value && a.superseded == b.superseded;
    }
  }

  /** A table whose every record is found at a key agrees when the keys agree. */
  lemma OwnedTable<P(!new), V(!new)>(s: RegistryState, t: RegistryState, a: Table<P, Owner, V>, b: Table<P, Owner, V>,
                                     key: (P, Owner) -> Key, claim: (P, V) -> Claim)
    requires NoEmptyGroup(a) && NoEmptyGroup(b) && SameKeysHold(s, t)
    requires forall p, o :: At(s, key(p, o)) == Lift(Cell(a, p, o), v => claim(p, v))
    requires forall p, o :: At(t, key(p, o)) == Lift(Cell(b, p, o), v => claim(p, v))
    requires forall p, v, w :: claim(p, v) == claim(p, w) ==> v == w
    ensures CanonTable(a) == CanonTable(b)
  {
    hide At, SameCell, NoEmptyGroup, Lift;
    forall p, o
      ensures SameCell(Cell(a, p, o), Cell(b, p, o))
    {
      assert SameCell(At(s, key(p, o)), At(t, key(p, o)));
      Unlift(Cell(a, p, o), Cell(b, p, o), v => claim(p, v));
    }
    TablesFromCells(a, b);
  }

  ghost predicate SameKeysHold(s: RegistryState, t: RegistryState) { forall k :: SameCell(At(s, k), At(t, k)) }

  lemma PortTable(s: RegistryState, t: RegistryState)
    requires ShapeOk(s) && ShapeOk(t) && SameKeysHold(s, t)
    ensures CanonTable(s.ports) == CanonTable(t.ports)
  {
    hide CanonFolded, NoEmptyGroup;
    forall p, key
      ensures SameCell(Cell(s.ports, p, key), Cell(t.ports, p, key))
    {
      if p == key.port {
        assert SameCell(At(s, PortKey(key)), At(t, PortKey(key)));
        PortUnlift(s, t, key);
      }
    }
    TablesFromCells(s.ports, t.ports);
  }

  lemma PortUnlift(s: RegistryState, t: RegistryState, key: SlotKey)
    requires SameCell(At(s, PortKey(key)), At(t, PortKey(key)))
    ensures SameCell(Cell(s.ports, key.port, key), Cell(t.ports, key.port, key))
  {
    Unlift(Cell(s.ports, key.port, key), Cell(t.ports, key.port, key), v => PortClaim(key, v));
  }

  lemma RegistrationTables(s: RegistryState, t: RegistryState)
    requires ShapeOk(s) && ShapeOk(t) && SameKeysHold(s, t)
    ensures CanonTable(s.objects) == CanonTable(t.objects) && CanonTable(s.endpoints) == CanonTable(t.endpoints)
    ensures CanonTable(s.subjects) == CanonTable(t.subjects)
  {
    hide NoEmptyGroup, SameKeysHold, CanonTable;
    OwnedTable(s, t, s.objects, t.objects, (x, o) => ObjectKey(x, o), (x, v) => ObjectClaim(x, v));
    OwnedTable(s, t, s.endpoints, t.endpoints, (x, o) => EndpointKey(x, o), (x, v) => EndpointClaim(x, v));
    OwnedTable(s, t, s.subjects, t.subjects, (x, o) => SubjectKey(x, o), (x, v) => SubjectClaim(x, v));
  }

  lemma LifetimeTables(s: RegistryState, t: RegistryState)
    requires ShapeOk(s) && ShapeOk(t) && SameKeysHold(s, t)
    ensures CanonTable(s.lifecycles) == CanonTable(t.lifecycles)
            && CanonTable(s.reincarnations) == CanonTable(t.reincarnations)
  {
    hide NoEmptyGroup, SameKeysHold, CanonTable;
    OwnedTable(s, t, s.lifecycles, t.lifecycles, (x, o) => LifecycleKey(x, o), (x, v) => LifecycleClaim(x, v));
    OwnedTable(s, t, s.reincarnations, t.reincarnations, (x, o) => ReincarnationKey(x, o),
      (x, v) => ReincarnationClaim(x, v));
  }

  lemma CapabilityTables(s: RegistryState, t: RegistryState)
    requires ShapeOk(s) && ShapeOk(t) && SameKeysHold(s, t)
    ensures CanonTable(s.objectCapabilities) == CanonTable(t.objectCapabilities)
    ensures CanonTable(s.portCapabilities) == CanonTable(t.portCapabilities)
  {
    hide NoEmptyGroup, SameKeysHold, CanonTable;
    OwnedTable(s, t, s.objectCapabilities, t.objectCapabilities, (x, o) => ObjectCapabilityKey(x, o),
      (x, v) => ObjectCapabilityClaim(x, v));
    OwnedTable(s, t, s.portCapabilities, t.portCapabilities, (x, o) => PortCapabilityKey(x, o),
      (x, v) => PortCapabilityClaim(x, v));
  }

  // ---- The theorem ----

  /** Nothing has been delivered yet. */
  predicate Blank(s: RegistryState)
  {
    && s.objects == map[] && s.endpoints == map[] && s.subjects == map[] && s.ports == map[]
    && s.lifecycles == map[] && s.reincarnations == map[] && s.objectCapabilities == map[]
      && s.portCapabilities == map[]
  }

  /** Opening the same sessions leaves two new registries blank and alike. */
  lemma {:induction false} OpeningsAlike(s: RegistryState, t: RegistryState, l: Limits, h: nat,
                                         evs: seq<Sessions.Event>)
    requires Blank(s) && t == s.(id := t.id, openedAt := t.openedAt) && forall ev :: ev in evs ==> ev.Opening?
    ensures var s', t' := Sessions.Run(s, l, h, evs), Sessions.Run(t, l, h, evs);
            Blank(s') && t' == s'.(id := t.id, openedAt := t.openedAt)
    decreases |evs|
  {
    hide Sessions.Step, Blank;
    if evs != [] {
      var init, ev := evs[..|evs| - 1], evs[|evs| - 1];
      OpeningsAlike(s, t, l, h, init);
      OpeningAlike(Sessions.Run(s, l, h, init), Sessions.Run(t, l, h, init), l, h, ev);
    }
  }

  lemma OpeningAlike(s: RegistryState, t: RegistryState, l: Limits, h: nat, ev: Sessions.Event)
    requires Blank(s) && t == s.(id := t.id, openedAt := t.openedAt) && ev.Opening?
    ensures var s', t' := Sessions.Step(s, l, h, ev), Sessions.Step(t, l, h, ev);
            Blank(s') && t' == s'.(id := t.id, openedAt := t.openedAt)
  {
    hide Sessions.SourceAfterOpen;
  }

  lemma BlankHolds(s: RegistryState, h: nat)
    requires Blank(s)
    ensures AllHold(s, {}, h) && ShapeOk(s)
  {
    forall k
      ensures At(s, k).None? && Touching({}, k) == {}
    {
    }
  }

  /** After welcome deliveries, every key holds its newest record and exactly the h newest it superseded. */
  lemma DeliveryMeaning(s: RegistryState, l: Limits, h: nat, q: seq<Delivery>, k: Key)
    requires Blank(s) && AllWelcome(s, l, h, q) && WellBehaved(Records(q))
    ensures Holds(At(Deliver(s, l, h, q), k), s.sources, Records(q), k, h)
  {
    hide Holds, At, Deliver, WellBehaved, AllWelcome;
    BlankHolds(s, h);
    DeliverHolds(s, l, h, q);
  }

  /** Two registries with the same sources and sessions, and nothing delivered yet. */
  ghost predicate AlikeBlank(s: RegistryState, t: RegistryState)
  {
    Blank(s) && Blank(t) && t.sources == s.sources && t.sessions.Keys == s.sessions.Keys
  }

  /**
    * Two welcome deliveries of the same well-behaved records, in any order and with any
    * repeats, leave the same evidence behind, and so the same snapshot.
    */
  lemma Confluence(s: RegistryState, t: RegistryState, l: Limits, h: nat, p: seq<Delivery>, q: seq<Delivery>)
    requires AlikeBlank(s, t) && AllWelcome(s, l, h, p) && AllWelcome(t, l, h, q)
    requires Records(p) == Records(q) && WellBehaved(Records(p))
    ensures SameEvidence(Deliver(s, l, h, p), Deliver(t, l, h, q))
    ensures BuildSnapshot(Deliver(t, l, h, q), l) == BuildSnapshot(Deliver(s, l, h, p), l)
  {
    hide Holds, At, Deliver, WellBehaved, AllWelcome, Records, SameCell, CanonTable, ShapeOk, BuildSnapshot;
    BlankHolds(s, h);
    BlankHolds(t, h);
    DeliverHolds(s, l, h, p);
    DeliverHolds(t, l, h, q);
    DeliverShape(s, l, h, p);
    DeliverShape(t, l, h, q);
    var a, b := Deliver(s, l, h, p), Deliver(t, l, h, q);
    forall k
      ensures SameCell(At(a, k), At(b, k))
    {
      HoldsUnique(At(a, k), At(b, k), s.sources, Records(p), k, h);
    }
    PortTable(a, b);
    RegistrationTables(a, b);
    LifetimeTables(a, b);
    CapabilityTables(a, b);
    SnapshotOfEvidence(a, b, l);
  }
}
