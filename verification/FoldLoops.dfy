// The fold as the registry runs it: the ring is sorted in place and trimmed from the front,
// one record at a time.

module FoldLoops {
  import opened Words
  import opened Evidence
  import opened Ordering
  import opened State
  import opened Fold

  /** The first j entries take m in, the rest stay behind them. */
  ghost predicate InsertsBefore(ring: seq<Attestation>, m: Attestation, j: nat)
    requires j <= |ring|
  {
    InsertBy(ring, m, RingRank) == InsertBy(ring[..j], m, RingRank) + ring[j..]
  }

  lemma InsertsAll(ring: seq<Attestation>, m: Attestation)
    ensures InsertsBefore(ring, m, |ring|)
  {
    assert ring[..|ring|] == ring;
  }

  lemma InsertsEarlier(ring: seq<Attestation>, m: Attestation, j: nat)
    requires 0 < j <= |ring| && InsertsBefore(ring, m, j) && RingRank(m) < RingRank(ring[j - 1])
    ensures InsertsBefore(ring, m, j - 1)
  {
    assert ring[..j] == ring[..j - 1] + [ring[j - 1]];
    InsertPasses(ring[..j - 1], ring[j - 1], m);
    hide InsertBy;
    assert [ring[j - 1]] + ring[j..] == ring[j - 1..];
  }

  lemma InsertPasses(ring: seq<Attestation>, last: Attestation, m: Attestation)
    requires RingRank(m) < RingRank(last)
    ensures InsertBy(ring + [last], m, RingRank) == InsertBy(ring, m, RingRank) + [last]
  {
    assert (ring + [last])[..|ring|] == ring;
  }

  lemma InsertsHere(ring: seq<Attestation>, m: Attestation, j: nat)
    requires j <= |ring| && InsertsBefore(ring, m, j) && (j == 0 || RingRank(m) >= RingRank(ring[j - 1]))
    ensures InsertBy(ring, m, RingRank) == ring[..j] + [m] + ring[j..]
  {
    assert InsertBy(ring[..j], m, RingRank) == ring[..j] + [m];
  }

  method InsertSorted(ring: seq<Attestation>, m: Attestation) returns (r: seq<Attestation>)
    ensures r == InsertBy(ring, m, RingRank)
  {
    hide InsertsBefore, InsertBy;
    var j := |ring|;
    InsertsAll(ring, m);
    while j > 0 && RingRank(m) < RingRank(ring[j - 1])
      invariant 0 <= j <= |ring| && InsertsBefore(ring, m, j)
    {
      InsertsEarlier(ring, m, j);
      j := j - 1;
    }
    InsertsHere(ring, m, j);
    r := ring[..j] + [m] + ring[j..];
  }

  method SortRing(ring: seq<Attestation>) returns (r: seq<Attestation>)
    ensures r == SortBy(ring, RingRank)
  {
    r := [];
    var i := 0;
    while i < |ring|
      invariant 0 <= i <= |ring| && r == SortBy(ring[..i], RingRank)
    {
      assert ring[..i + 1][..i] == ring[..i];
      r := InsertSorted(r, ring[i]);
      i := i + 1;
    }
    assert ring[..i] == ring;
  }

  /** Drops entries from the front until h remain, counting them in 32 bits. */
  method Trim(ring: seq<Attestation>, dropped: U32, h: nat) returns (entries: seq<Attestation>, total: U32)
    ensures entries == Newest(ring, h) && total == (dropped + |ring| - |entries|) % TWO_32
  {
    var gone := 0;
    total := dropped;
    while |ring| - gone > h
      invariant 0 <= gone <= |ring| && (gone == 0 || |ring| - gone >= h)
      invariant total == (dropped + gone) % TWO_32
    {
      OneMore(dropped + gone);
      gone := gone + 1;
      total := if total == TWO_32 - 1 then 0 else total + 1;
    }
    entries := ring[gone..];
  }

  lemma OneMore(n: nat)
    ensures (n + 1) % TWO_32 == if n % TWO_32 == TWO_32 - 1 then 0 else n % TWO_32 + 1
  {
  }

  /** Sorts the ring and drops its oldest entries until it fits. */
  method SortAndTrim(ring: seq<Attestation>, dropped: U32, h: nat) returns (entries: seq<Attestation>, total: U32)
    ensures Ring(entries, total) == Retain(ring, dropped, h)
  {
    hide SortBy;
    var sorted := SortRing(ring);
    entries, total := Trim(sorted, dropped, h);
  }

  method Cited(ring: seq<Attestation>, evidence: Id) returns (r: bool)
    ensures r == Cites(ring, evidence)
  {
    var i := 0;
    while i < |ring|
      invariant 0 <= i <= |ring| && forall j :: 0 <= j < i ==> ring[j].evidence != evidence
    {
      if ring[i].evidence == evidence { return true; }
      i := i + 1;
    }
    return false;
  }

  /** fold(): the newer record takes the key, and the old winner joins the ring. */
  method FoldSlot<K, V>(slots: map<K, Folded<V>>, key: K, meta: Attestation, value: V, h: nat)
    returns (r: map<K, Folded<V>>)
    ensures r == slots[key := if key in slots then FoldWin(slots[key], meta, value, h) else Folded(meta, value, [], 0)]
  {
    if key !in slots {
      return slots[key := Folded(meta, value, [], 0)];
    }
    var folded := slots[key];
    var present := Cited(folded.superseded, folded.meta.evidence);
    var ring := folded.superseded;
    if !present { ring := ring + [folded.meta]; }
    var entries, dropped := SortAndTrim(ring, folded.dropped, h);
    r := slots[key := Folded(meta, value, entries, dropped)];
  }

  /** fold_losing(): the record joins the ring of a key it does not win. */
  method FoldLosingSlot<K, V>(slots: map<K, Folded<V>>, key: K, meta: Attestation, h: nat)
    returns (r: map<K, Folded<V>>)
    ensures r == if key in slots then slots[key := FoldLose(slots[key], meta, h)] else slots
  {
    if key !in slots { return slots; }
    var folded := slots[key];
    var present := Cited(folded.superseded, meta.evidence);
    if folded.meta.evidence == meta.evidence || present {
      assert FoldLose(folded, meta, h) == folded;
      assert slots[key := folded] == slots;
      return slots;
    }
    var entries, dropped := SortAndTrim(folded.superseded + [meta], folded.dropped, h);
    r := slots[key := Folded(folded.meta, folded.value, entries, dropped)];
  }

  /** fold() under a primary key, whose group is made when it is missing. */
  method FoldTable<P, K, V>(t: Table<P, K, V>, p: P, k: K, meta: Attestation, value: V, h: nat)
    returns (r: Table<P, K, V>)
    ensures r == FoldIn(t, p, k, meta, value, h)
  {
    var group := FoldSlot(Group(t, p), k, meta, value, h);
    r := t[p := group];
  }

  method FoldLosingTable<P, K, V>(t: Table<P, K, V>, p: P, k: K, meta: Attestation, h: nat) returns (r: Table<P, K, V>)
    ensures r == FoldLosingIn(t, p, k, meta, h)
  {
    if p !in t { return t; }
    var group := FoldLosingSlot(t[p], k, meta, h);
    assert k !in t[p] ==> t[p := group] == t;
    r := t[p := group];
  }
}

// clear_volatile(): every record forgets, in place, that it was asserted in this process's lifetime.
module ClearLoops {
  import opened Evidence
  import opened State

  method ClearAttestations(ring: seq<Attestation>) returns (r: seq<Attestation>)
    ensures r == ClearRing(ring)
  {
    r := ring;
    for i := 0 to |ring|
      invariant |r| == |ring| && r[i..] == ring[i..]
      invariant forall j :: 0 <= j < i ==> r[j] == ClearMeta(ring[j])
    {
      assert r[i] == r[i..][0] == ring[i..][0] == ring[i];
      r := r[i := r[i].(inLifetime := false)];
    }
  }

  method ClearRecords<K(==), V>(group: map<K, Folded<V>>) returns (r: map<K, Folded<V>>)
    ensures r == ClearGroup(group)
  {
    r := group;
    var todo := group.Keys;
    while todo != {}
      invariant todo <= group.Keys && r.Keys == group.Keys
      invariant forall k :: k in group ==> r[k] == if k in todo then group[k] else ClearFolded(group[k])
      decreases |todo|
    {
      var k :| k in todo;
      todo := todo - {k};
      var ring := ClearAttestations(r[k].superseded);
      r := r[k := r[k].(meta := ClearMeta(r[k].meta), superseded := ring)];
    }
  }

  method ClearGroups<P(==), K(==), V>(t: Table<P, K, V>) returns (r: Table<P, K, V>)
    ensures r == ClearTable(t)
  {
    r := t;
    var todo := t.Keys;
    while todo != {}
      invariant todo <= t.Keys && r.Keys == t.Keys
      invariant forall p :: p in t ==> r[p] == if p in todo then t[p] else ClearGroup(t[p])
      decreases |todo|
    {
      var p :| p in todo;
      todo := todo - {p};
      var group := ClearRecords(r[p]);
      r := r[p := group];
    }
  }

  method ClearLiveness(sessions: map<Owner, SessionRecord>) returns (r: map<Owner, SessionRecord>)
    ensures r == ClearSessions(sessions)
  {
    r := sessions;
    var todo := sessions.Keys;
    while todo != {}
      invariant todo <= sessions.Keys && r.Keys == sessions.Keys
      invariant forall o :: o in sessions ==> r[o] == if o in todo then sessions[o] else sessions[o].(live := false)
      decreases |todo|
    {
      var o :| o in todo;
      todo := todo - {o};
      r := r[o := r[o].(live := false)];
    }
  }
}
