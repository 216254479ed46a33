// The orders the registry sorts and compares by, field by field: every rank is the
// lexicographic order of the fields it is made of.

module Orders {
  import opened Words
  import opened Evidence
  import opened State
  import opened Fold
  import opened Derive

  /** An authority outweighs another by its class, and within a class by its rank. */
  lemma AuthorityOrder(a: Authority, b: Authority)
    ensures ClassOrdinal(Speculative) < ClassOrdinal(Imported) < ClassOrdinal(Observed) < ClassOrdinal(Declared)
    ensures ClassOrdinal(Declared) < ClassOrdinal(Authoritative)
    ensures AuthorityRank(a) < AuthorityRank(b) <==>
            || ClassOrdinal(a.authorityClass) < ClassOrdinal(b.authorityClass)
            || (a.authorityClass == b.authorityClass && a.rank < b.rank)
  {
  }

  predicate OwnerBefore(a: Owner, b: Owner)
  {
    a.source < b.source || (a.source == b.source && a.incarnation < b.incarnation)
  }

  lemma OwnerOrder(a: Owner, b: Owner)
    ensures OwnerRank(a) < OwnerRank(b) <==> OwnerBefore(a, b)
    ensures OwnerRank(a) == OwnerRank(b) <==> a == b
  {
  }

  predicate PortBefore(a: PortRef, b: PortRef)
  {
    a.endpoint < b.endpoint || (a.endpoint == b.endpoint && a.index < b.index)
  }

  lemma PortOrder(a: PortRef, b: PortRef)
    ensures PortRank(a) < PortRank(b) <==> PortBefore(a, b)
    ensures PortRank(a) == PortRank(b) <==> a == b
  {
  }

  lemma SideOrder(a: SideRef, b: SideRef)
    ensures SideRank(a) < SideRank(b) <==>
            a.objectId < b.objectId || (a.objectId == b.objectId && a.side < b.side)
  {
  }

  /** Slots go by owner, then port, then number. */
  lemma SlotOrder(a: SlotKey, b: SlotKey)
    ensures SlotRank(a) < SlotRank(b) <==>
            || OwnerBefore(a.owner, b.owner)
            || (a.owner == b.owner && PortBefore(a.port, b.port))
            || (a.owner == b.owner && a.port == b.port && a.slot < b.slot)
  {
    hide OwnerRank, PortRank;
    OwnerOrder(a.owner, b.owner);
    PortOrder(a.port, b.port);
    PortBound(a.port);
    PortBound(b.port);
  }

  lemma PortBound(p: PortRef)
    ensures 0 <= PortRank(p) < TWO_128 * TWO_32
  {
  }

  /** Citations go by owner, then generation, then evidence id. */
  lemma ClaimOrder(a: Attestation, b: Attestation)
    ensures ClaimRank(a) < ClaimRank(b) <==>
            || OwnerBefore(a.owner, b.owner)
            || (a.owner == b.owner && a.generation < b.generation)
            || (a.owner == b.owner && a.generation == b.generation && a.evidence < b.evidence)
  {
    hide OwnerRank;
    OwnerOrder(a.owner, b.owner);
  }

  /** Superseded records go by generation, then evidence id. */
  lemma RingOrder(a: Attestation, b: Attestation)
    ensures RingRank(a) < RingRank(b) <==>
            a.generation < b.generation || (a.generation == b.generation && a.evidence < b.evidence)
  {
  }
}
