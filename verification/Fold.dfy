// Folding one record into one claim key.
//
// A key keeps the record of the highest generation and a ring of the records it
// superseded.  The ring is sorted by (generation, evidence) and keeps the highest.

module Fold {
  import opened Words
  import opened Evidence
  import opened Ordering
  import opened State

  function RingRank(a: Attestation): int { a.generation * TWO_128 + a.evidence }

  predicate Cites(ring: seq<Attestation>, evidence: Id)
  {
    exists i :: 0 <= i < |ring| && ring[i].evidence == evidence
  }

  /** The last h elements. */
  function Newest(ring: seq<Attestation>, h: nat): (r: seq<Attestation>)
    ensures |r| <= h && |r| <= |ring|
  {
    if |ring| > h then ring[|ring| - h..] else ring
  }

  datatype Ring = Ring(entries: seq<Attestation>, dropped: U32)

  /** Sorts the ring and drops the lowest entries beyond h, counting them in 32 bits. */
  function Retain(ring: seq<Attestation>, dropped: U32, h: nat): Ring
  {
    var sorted := SortBy(ring, RingRank);
    var kept := Newest(sorted, h);
    Ring(kept, (dropped + |sorted| - |kept|) % TWO_32)
  }

  /** The old winner enters the ring, unless its evidence is already there. */
  function RingAfterWin(winner: Attestation, ring: seq<Attestation>, dropped: U32, h: nat): Ring
  {
    Retain(if Cites(ring, winner.evidence) then ring else ring + [winner], dropped, h)
  }

  /** A losing record enters the ring, unless its evidence is already held. */
  function RingAfterLoss(winner: Attestation, ring: seq<Attestation>, dropped: U32, loser: Attestation, h: nat): Ring
  {
    if winner.evidence == loser.evidence || Cites(ring, loser.evidence) then Ring(ring, dropped)
    else Retain(ring + [loser], dropped, h)
  }

  /** fold(): a newer record takes the key and the old winner goes to the ring. */
  function FoldWin<V>(f: Folded<V>, meta: Attestation, value: V, h: nat): Folded<V>
  {
    var r := RingAfterWin(f.meta, f.superseded, f.dropped, h);
    Folded(meta, value, r.entries, r.dropped)
  }

  /** fold_losing(): the winner stays and the losing record goes to the ring. */
  function FoldLose<V>(f: Folded<V>, loser: Attestation, h: nat): Folded<V>
  {
    var r := RingAfterLoss(f.meta, f.superseded, f.dropped, loser, h);
    Folded(f.meta, f.value, r.entries, r.dropped)
  }

  function FoldIn<P, K, V>(t: Table<P, K, V>, p: P, k: K, meta: Attestation, value: V, h: nat): Table<P, K, V>
  {
    Put(t, p, k, if Has(t, p, k) then FoldWin(t[p][k], meta, value, h) else Folded(meta, value, [], 0))
  }

  function FoldLosingIn<P, K, V>(t: Table<P, K, V>, p: P, k: K, meta: Attestation, h: nat): Table<P, K, V>
  {
    if Has(t, p, k) then Put(t, p, k, FoldLose(t[p][k], meta, h)) else t
  }

  datatype KeyOutcome = Insert | Superseded | Duplicate | Collision

  /** How an incoming record relates to the record that holds the key. */
  function CompareGeneration(stored: Attestation, incoming: Attestation, sameContent: bool): KeyOutcome
  {
    if incoming.generation > stored.generation then Insert
    else if incoming.generation < stored.generation then Superseded
    else if sameContent then Duplicate else Collision
  }
}
