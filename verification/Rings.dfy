// The ring of a claim key holds exactly the newest records among all that ever lost the
// key, however they arrived: adding one record to such a ring keeps it such a ring.

module Rings {
  import opened Words
  import opened Evidence
  import opened Ordering
  import opened State
  import opened Fold
  import opened Bounds

  function Elements(q: seq<Attestation>): set<Attestation> { set m | m in q }

  /** No two of the records tie. */
  ghost predicate Untied(losers: set<Attestation>)
  {
    forall a, b :: a in losers && b in losers && RingRank(a) == RingRank(b) ==> a == b
  }

  /** The ring is the h highest of the losers, in ascending order. */
  ghost predicate IsTop(ring: seq<Attestation>, losers: set<Attestation>, h: nat)
  {
    && Ascending(ring, RingRank)
    && Elements(ring) <= losers
    && |ring| == (if |losers| < h then |losers| else h)
    && forall x, y :: x in losers && x !in ring && y in ring ==> RingRank(x) < RingRank(y)
  }

  lemma {:induction false} AscendingSize(q: seq<Attestation>)
    requires Ascending(q, RingRank)
    ensures |Elements(q)| == |q|
  {
    if q == [] {
      assert Elements(q) == {};
    } else {
      var last, init := q[|q| - 1], q[..|q| - 1];
      AscendingSize(init);
      assert forall i :: 0 <= i < |init| ==> RingRank(q[i]) < RingRank(q[|q| - 1]) && init[i] == q[i];
      assert last !in init;
      assert q == init + [last];
      assert Elements(q) == Elements(init) + {last};
    }
  }

  /** There is only one such ring. */
  lemma TopUnique(p: seq<Attestation>, q: seq<Attestation>, losers: set<Attestation>, h: nat)
    requires IsTop(p, losers, h) && IsTop(q, losers, h)
    ensures p == q
  {
    AscendingSize(p);
    AscendingSize(q);
    TopWithin(p, q, losers, h);
    TopWithin(q, p, losers, h);
    forall m
      ensures m in p <==> m in q
    {
      assert m in p <==> m in Elements(p);
      assert m in q <==> m in Elements(q);
    }
    AscendingUnique(p, q, RingRank);
  }

  lemma TopWithin(p: seq<Attestation>, q: seq<Attestation>, losers: set<Attestation>, h: nat)
    requires IsTop(p, losers, h) && IsTop(q, losers, h)
    requires |Elements(p)| == |p| && |Elements(q)| == |q|
    ensures Elements(p) <= Elements(q)
  {
    if x :| x in Elements(p) && x !in Elements(q) {
      var y := Exchange(Elements(p), Elements(q), x);
      assert false;
    }
  }

  /** Sets of one size that differ each hold something the other does not. */
  lemma Exchange(p: set<Attestation>, q: set<Attestation>, x: Attestation) returns (y: Attestation)
    requires |p| == |q| && x in p && x !in q
    ensures y in q && y !in p
  {
    if q <= p {
      SameSizeSubset(q, p);
      assert false;
    }
    y :| y in q && y !in p;
  }

  /** Sorting untied records gives a strictly ascending sequence of the same records. */
  lemma SortAscends(q: seq<Attestation>)
    requires Untied(Elements(q)) && |Elements(q)| == |q|
    ensures Ascending(SortBy(q, RingRank), RingRank)
    ensures Elements(SortBy(q, RingRank)) == Elements(q)
    ensures |SortBy(q, RingRank)| == |q|
  {
    var r := SortBy(q, RingRank);
    SortBySorts(q, RingRank);
    SortByMembers(q, RingRank);
    assert Elements(r) == Elements(q);
    forall i, j | 0 <= i < j < |r|
      ensures RingRank(r[i]) < RingRank(r[j])
    {
      if r[i] == r[j] {
        RepeatsShrink(r, i, j);
        assert false;
      }
      assert r[i] in Elements(r) && r[j] in Elements(r);
    }
  }

  lemma {:induction false} ElementsBound(q: seq<Attestation>)
    ensures |Elements(q)| <= |q|
  {
    if q == [] {
      assert Elements(q) == {};
    } else {
      ElementsBound(q[1..]);
      assert q == [q[0]] + q[1..];
      assert Elements(q) == {q[0]} + Elements(q[1..]);
    }
  }

  lemma RepeatsShrink(q: seq<Attestation>, i: nat, j: nat)
    requires i < j < |q| && q[i] == q[j]
    ensures |Elements(q)| < |q|
  {
    var rest := q[..j] + q[j + 1..];
    ElementsBound(rest);
    forall m | m in q
      ensures m in rest
    {
      var n :| 0 <= n < |q| && q[n] == m;
      if n < j {
        assert rest[n] == m;
      } else if n > j {
        assert rest[n - 1] == m;
      } else {
        assert rest[i] == m;
      }
    }
    forall m | m in rest
      ensures m in q
    {
    }
    assert Elements(rest) == Elements(q);
  }

  /** One more loser: sort it in and drop what no longer fits. */
  lemma TopAdd(ring: seq<Attestation>, losers: set<Attestation>, m: Attestation, dropped: U32, h: nat)
    requires IsTop(ring, losers, h) && m !in ring && Untied(losers + {m})
    ensures IsTop(Retain(ring + [m], dropped, h).entries, losers + {m}, h)
  {
    hide SortBy;
    AscendingSize(ring);
    var all := ring + [m];
    assert Elements(all) == Elements(ring) + {m};
    var r := SortBy(all, RingRank);
    SortAscends(all);
    var kept := Newest(r, h);
    if |r| <= h {
      AllKept(ring, losers, m, h, r);
    } else {
      LowestDropped(ring, losers, m, h, r);
    }
  }

  lemma AllKept(ring: seq<Attestation>, losers: set<Attestation>, m: Attestation, h: nat, r: seq<Attestation>)
    requires IsTop(ring, losers, h) && m !in ring && |Elements(ring)| == |ring|
    requires Ascending(r, RingRank) && Elements(r) == Elements(ring) + {m} && |r| == |ring| + 1 <= h
    ensures IsTop(r, losers + {m}, h)
  {
    SameSizeSubset(Elements(ring), losers);
    assert m !in losers;
    assert |losers + {m}| == |losers| + 1;
    assert forall x :: x in losers + {m} ==> x in Elements(r);
  }

  lemma LowestDropped(ring: seq<Attestation>, losers: set<Attestation>, m: Attestation, h: nat, r: seq<Attestation>)
    requires IsTop(ring, losers, h) && m !in ring && |Elements(ring)| == |ring|
    requires Ascending(r, RingRank) && Elements(r) == Elements(ring) + {m} && |r| == |ring| + 1 && |r| > h
    ensures IsTop(Newest(r, h), losers + {m}, h)
  {
    assert |ring| == h && Newest(r, h) == r[1..];
    SubsetSize(losers, losers + {m});
    TailAbove(r);
    forall x, y | x in losers + {m} && x !in r[1..] && y in r[1..]
      ensures RingRank(x) < RingRank(y)
    {
      BelowKept(ring, losers, m, h, r, x, y);
    }
    assert Elements(r[1..]) <= Elements(r);
    TailAscends(r);
  }

  lemma TailAscends(r: seq<Attestation>)
    requires Ascending(r, RingRank) && r != []
    ensures Ascending(r[1..], RingRank)
  {
    forall i, j | 0 <= i < j < |r[1..]|
      ensures RingRank(r[1..][i]) < RingRank(r[1..][j])
    {
      assert RingRank(r[i + 1]) < RingRank(r[j + 1]);
    }
  }

  lemma TailAbove(r: seq<Attestation>)
    requires Ascending(r, RingRank) && r != []
    ensures Elements(r) == Elements(r[1..]) + {r[0]}
    ensures forall y :: y in r[1..] ==> RingRank(r[0]) < RingRank(y)
  {
    assert r == [r[0]] + r[1..];
    forall y | y in r[1..]
      ensures RingRank(r[0]) < RingRank(y)
    {
      var j :| 0 <= j < |r[1..]| && r[1..][j] == y;
      assert RingRank(r[0]) < RingRank(r[j + 1]);
    }
  }

  lemma BelowKept(ring: seq<Attestation>, losers: set<Attestation>, m: Attestation, h: nat, r: seq<Attestation>,
                  x: Attestation, y: Attestation)
    requires IsTop(ring, losers, h) && r != []
    requires Elements(r) == Elements(ring) + {m} && Elements(r) == Elements(r[1..]) + {r[0]}
    requires forall y :: y in r[1..] ==> RingRank(r[0]) < RingRank(y)
    requires x in losers + {m} && x !in r[1..] && y in r[1..]
    ensures RingRank(x) < RingRank(y)
  {
    assert y in Elements(r[1..]);
    assert r[0] in Elements(r);
    if x != r[0] {
      assert x !in Elements(r);
      assert x in losers && x !in ring;
      if y == m {
        assert r[0] in Elements(ring);
        assert RingRank(x) < RingRank(r[0]) < RingRank(y);
      } else {
        assert y in Elements(ring);
      }
    }
  }

  lemma TopEmpty(h: nat)
    ensures IsTop([], {}, h)
  {
  }

  /** A record that lost before, or sits in the ring already, changes nothing. */
  lemma TopAgain(ring: seq<Attestation>, losers: set<Attestation>, m: Attestation, h: nat)
    requires IsTop(ring, losers, h) && m in losers
    ensures IsTop(ring, losers + {m}, h)
  {
    assert losers + {m} == losers;
  }

  /** A record that newly loses is either kept in the ring or counted as dropped. */
  lemma DropsCounted(winner: Attestation, ring: seq<Attestation>, dropped: U32, loser: Attestation, h: nat)
    requires loser.evidence != winner.evidence && !Cites(ring, loser.evidence)
    ensures var r := RingAfterLoss(winner, ring, dropped, loser, h);
            (|r.entries| + r.dropped) % TWO_32 == (|ring| + 1 + dropped) % TWO_32
            && |r.entries| == if |ring| < h then |ring| + 1 else h
  {
    hide SortBy;
  }
}
