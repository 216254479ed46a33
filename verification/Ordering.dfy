// Deterministic iteration.  The source keeps every collection in an ordered std::map
// and sorts its answers; here an order is an integer rank, and a set is enumerated in
// ascending rank.

module Ordering {

  /** Different elements have different ranks. */
  ghost predicate Injective<K(!new)>(rank: K -> int)
  {
    forall a: K, b: K :: rank(a) == rank(b) ==> a == b
  }

  lemma {:induction false} LeastExists<K>(s: set<K>, rank: K -> int)
    requires s != {}
    ensures exists k :: k in s && forall x :: x in s ==> rank(k) <= rank(x)
    decreases |s|
  {
    var k :| k in s;
    var rest := s - {k};
    if rest == {} {
      forall x | x in s
        ensures x == k
      {
        assert x in rest || x == k;
      }
    } else {
      LeastExists(rest, rank);
      var m :| m in rest && forall x :: x in rest ==> rank(m) <= rank(x);
      var least := if rank(m) <= rank(k) then m else k;
      assert least in s && forall x :: x in s ==> rank(least) <= rank(x);
    }
  }

  ghost function Least<K>(s: set<K>, rank: K -> int): (k: K)
    requires s != {}
    ensures k in s && forall x :: x in s ==> rank(k) <= rank(x)
  {
    LeastExists(s, rank);
    var k :| k in s && forall x :: x in s ==> rank(k) <= rank(x);
    k
  }

  ghost function Greatest<K>(s: set<K>, rank: K -> int): (k: K)
    requires s != {}
    ensures k in s && forall x :: x in s ==> rank(x) <= rank(k)
  {
    Least(s, x => -rank(x))
  }

  ghost function Maximum(s: set<int>): (m: int)
    requires s != {}
    ensures m in s && forall x :: x in s ==> x <= m
  {
    Greatest(s, (x: int) => x)
  }

  /** The elements of s in ascending rank. */
  ghost function Sorted<K(!new)>(s: set<K>, rank: K -> int): (q: seq<K>)
    ensures |q| == |s|
    ensures forall k :: k in q <==> k in s
    decreases |s|
  {
    if s == {} then []
    else
      var k := Least(s, rank);
      [k] + Sorted(s - {k}, rank)
  }

  ghost predicate Ascending<K>(q: seq<K>, rank: K -> int)
  {
    forall i, j :: 0 <= i < j < |q| ==> rank(q[i]) < rank(q[j])
  }

  lemma {:induction false} SortedAscends<K(!new)>(s: set<K>, rank: K -> int)
    requires Injective(rank)
    ensures Ascending(Sorted(s, rank), rank)
    decreases |s|
  {
    if s != {} {
      var k := Least(s, rank);
      var rest := Sorted(s - {k}, rank);
      SortedAscends(s - {k}, rank);
      assert Sorted(s, rank) == [k] + rest;
      hide Sorted, Least;
      AscendingPrepend(k, rest, rank) by {
        forall x | x in rest
          ensures rank(k) < rank(x)
        {
          assert x in s - {k} && rank(k) != rank(x);
        }
      }
    }
  }

  lemma AscendingPrepend<K>(k: K, rest: seq<K>, rank: K -> int)
    requires Ascending(rest, rank) && forall x :: x in rest ==> rank(k) < rank(x)
    ensures Ascending([k] + rest, rank)
  {
    assert forall j :: 0 <= j < |rest| ==> rest[j] in rest;
  }

  lemma FirstIn<K>(q: seq<K>)
    requires q != []
    ensures q[0] in q
  {
  }

  /** An ascending sequence is determined by its elements. */
  lemma {:induction false} AscendingUnique<K(!new)>(p: seq<K>, q: seq<K>, rank: K -> int)
    requires Ascending(p, rank) && Ascending(q, rank)
    requires forall k :: k in p <==> k in q
    ensures p == q
    decreases |p|
  {
    if p == [] {
      if q != [] {
        FirstIn(q);
        assert false;
      }
    } else {
      assert p[0] in p && p[0] in q;
      assert q[0] in q && q[0] in p;
      assert p[0] == q[0];
      var p', q' := p[1..], q[1..];
      forall k
        ensures k in p' <==> k in q'
      {
        if k in p' {
          var i :| 0 <= i < |p'| && p'[i] == k;
          assert p[i + 1] == k && k in p && k in q;
          var j :| 0 <= j < |q| && q[j] == k;
          assert q'[j - 1] == k;
        }
        if k in q' {
          var i :| 0 <= i < |q'| && q'[i] == k;
          assert q[i + 1] == k && k in q && k in p;
          var j :| 0 <= j < |p| && p[j] == k;
          assert p'[j - 1] == k;
        }
      }
      AscendingUnique(p', q', rank);
      assert p == [p[0]] + p' && q == [q[0]] + q';
    }
  }

  // ---- Sorting a sequence, ties kept in place ----

  function InsertBy<T>(s: seq<T>, x: T, rank: T -> int): (r: seq<T>)
    ensures |r| == |s| + 1
    ensures multiset(r) == multiset(s) + multiset{x}
  {
    if s == [] then [x]
    else
      var last := s[|s| - 1];
      assert s == s[..|s| - 1] + [last];
      if rank(x) < rank(last) then InsertBy(s[..|s| - 1], x, rank) + [last]
      else s + [x]
  }

  function SortBy<T>(s: seq<T>, rank: T -> int): (r: seq<T>)
    ensures |r| == |s|
    ensures multiset(r) == multiset(s)
  {
    if s == [] then []
    else
      assert s == s[..|s| - 1] + [s[|s| - 1]];
      InsertBy(SortBy(s[..|s| - 1], rank), s[|s| - 1], rank)
  }

  /** Ranks never go down along the sequence. */
  ghost predicate NonDescending<T>(s: seq<T>, rank: T -> int)
  {
    forall i, j :: 0 <= i < j < |s| ==> rank(s[i]) <= rank(s[j])
  }

  lemma InMultiset<T>(s: seq<T>, x: T)
    ensures x in s <==> x in multiset(s)
  {
  }

  lemma {:induction false} InsertBySorts<T>(s: seq<T>, x: T, rank: T -> int)
    requires NonDescending(s, rank)
    ensures NonDescending(InsertBy(s, x, rank), rank)
  {
    if s != [] {
      var last, init := s[|s| - 1], s[..|s| - 1];
      if rank(x) < rank(last) {
        InsertBySorts(init, x, rank);
        var r := InsertBy(init, x, rank);
        forall i | 0 <= i < |r|
          ensures rank(r[i]) <= rank(last)
        {
          assert r[i] in multiset(r);
          assert r[i] in multiset(init) || r[i] == x;
          if r[i] in multiset(init) {
            assert r[i] in init;
          }
        }
      }
    }
  }

  lemma {:induction false} SortBySorts<T>(s: seq<T>, rank: T -> int)
    ensures NonDescending(SortBy(s, rank), rank)
  {
    if s != [] {
      SortBySorts(s[..|s| - 1], rank);
      InsertBySorts(SortBy(s[..|s| - 1], rank), s[|s| - 1], rank);
    }
  }

  lemma {:induction false} SortByOfSorted<T>(s: seq<T>, rank: T -> int)
    requires NonDescending(s, rank)
    ensures SortBy(s, rank) == s
  {
    if s != [] {
      SortByOfSorted(s[..|s| - 1], rank);
      assert s == s[..|s| - 1] + [s[|s| - 1]];
    }
  }

  lemma SortByMembers<T>(s: seq<T>, rank: T -> int)
    ensures forall x :: x in SortBy(s, rank) <==> x in s
  {
    forall x
      ensures x in SortBy(s, rank) <==> x in s
    {
      InMultiset(s, x);
      InMultiset(SortBy(s, rank), x);
    }
  }

  function MapSeq<T>(s: seq<T>, f: T -> T): (r: seq<T>)
    ensures |r| == |s|
    ensures forall i :: 0 <= i < |s| ==> r[i] == f(s[i])
  {
    seq(|s|, i requires 0 <= i < |s| => f(s[i]))
  }

  lemma {:induction false} InsertByMap<T(!new)>(s: seq<T>, x: T, f: T -> T, rank: T -> int)
    requires forall y :: rank(f(y)) == rank(y)
    ensures MapSeq(InsertBy(s, x, rank), f) == InsertBy(MapSeq(s, f), f(x), rank)
  {
    if s == [] {
    } else {
      var init, last := s[..|s| - 1], s[|s| - 1];
      assert MapSeq(s, f)[..|s| - 1] == MapSeq(init, f);
      if rank(x) < rank(last) {
        InsertByMap(init, x, f, rank);
        assert MapSeq(InsertBy(init, x, rank) + [last], f) == MapSeq(InsertBy(init, x, rank), f) + [f(last)];
      } else {
        assert MapSeq(s + [x], f) == MapSeq(s, f) + [f(x)];
      }
    }
  }

  /** Sorting commutes with any map that keeps ranks. */
  lemma {:induction false} SortByMap<T(!new)>(s: seq<T>, f: T -> T, rank: T -> int)
    requires forall y :: rank(f(y)) == rank(y)
    ensures MapSeq(SortBy(s, rank), f) == SortBy(MapSeq(s, f), rank)
  {
    if s == [] {
    } else {
      var init, last := s[..|s| - 1], s[|s| - 1];
      assert MapSeq(s, f)[..|s| - 1] == MapSeq(init, f);
      SortByMap(init, f, rank);
      InsertByMap(SortBy(init, rank), last, f, rank);
    }
  }
}
