// Codecs: a printer and a parser that undo each other.
//
// A lawful codec parses back exactly what it printed, followed by whatever came after, when
// the value is valid, and nothing when it is not; and it accepts no bytes but its own.  The
// combinators inherit the law from their parts.

module Codec {
  import opened Words
  import opened LittleEndian
  import opened State

  /**
    * `sound` says the value can be printed at all (its lengths fit 32 bits), `valid` that the
    * parser accepts it.
    */
  datatype Codec<!T> = Codec(
    write: T -> Bytes,
    read: Bytes -> Option<(T, Bytes)>,
    sound: T -> bool,
    valid: T -> bool)

  ghost predicate Prints<T(!new)>(c: Codec<T>)
  {
    forall v: T, rest: Bytes {:trigger c.write(v) + rest} :: c.sound(v) ==>
      c.read(c.write(v) + rest) == if c.valid(v) then Some((v, rest)) else None
  }

  ghost predicate Parses<T(!new)>(c: Codec<T>)
  {
    forall b: Bytes :: c.read(b).Some? ==>
      && c.sound(c.read(b).value.0) && c.valid(c.read(b).value.0)
      && b == c.write(c.read(b).value.0) + c.read(b).value.1
  }

  ghost predicate Lawful<T(!new)>(c: Codec<T>) { Prints(c) && Parses(c) }

  /** The value can be written and is read back. */
  predicate Accepts<T>(c: Codec<T>, v: T) { c.sound(v) && c.valid(v) }

  /** Every value of the type is accepted. */
  ghost predicate Total<T(!new)>(c: Codec<T>) { forall v: T :: Accepts(c, v) }

  /** A whole buffer, with nothing left over. */
  function Whole<T>(c: Codec<T>, b: Bytes): Option<T>
  {
    var r := c.read(b);
    if r.Some? && r.value.1 == [] then Some(r.value.0) else None
  }

  /** Parsing undoes printing, exactly when the value is valid. */
  lemma RoundTrip<T(!new)>(c: Codec<T>, v: T)
    requires Lawful(c) && c.sound(v)
    ensures Whole(c, c.write(v)) == if c.valid(v) then Some(v) else None
  {
    assert c.write(v) + [] == c.write(v);
  }

  /** Printing undoes parsing: every accepted buffer is the one that would be printed. */
  lemma Canonical<T(!new)>(c: Codec<T>, b: Bytes)
    requires Lawful(c) && Whole(c, b).Some?
    ensures c.sound(Whole(c, b).value) && c.valid(Whole(c, b).value) && c.write(Whole(c, b).value) == b
  {
    var r := c.read(b).value;
    assert c.write(r.0) + [] == c.write(r.0);
  }

  /** No proper prefix and no proper extension of an accepted buffer is accepted. */
  lemma SelfDelimiting<T(!new)>(c: Codec<T>, b: Bytes, more: Bytes)
    requires Lawful(c) && Whole(c, b).Some? && Whole(c, b + more).Some?
    ensures more == []
  {
    Canonical(c, b);
    Canonical(c, b + more);
    var v := Whole(c, b).value;
    assert c.read(c.write(v) + more) == Some((v, more));
  }

  // ---- Combinators ----

  function DependWrite<A, B>(a: Codec<A>, f: A -> Codec<B>, v: (A, B)): Bytes { a.write(v.0) + f(v.0).write(v.1) }

  function DependRead<A, B>(a: Codec<A>, f: A -> Codec<B>, s: Bytes): Option<((A, B), Bytes)>
  {
    var x := a.read(s);
    if x.None? then None
    else
      var y := f(x.value.0).read(x.value.1);
      if y.None? then None else Some(((x.value.0, y.value.0), y.value.1))
  }

  /** One value, then another whose form depends on the first. */
  function Depend<A, B>(a: Codec<A>, f: A -> Codec<B>): Codec<(A, B)>
  {
    Codec((v: (A, B)) => DependWrite(a, f, v), s => DependRead(a, f, s),
          (v: (A, B)) => a.sound(v.0) && f(v.0).sound(v.1), (v: (A, B)) => a.valid(v.0) && f(v.0).valid(v.1))
  }

  lemma DependPrints<A(!new), B(!new)>(a: Codec<A>, f: A -> Codec<B>)
    requires Prints(a) && forall x :: Prints(f(x))
    ensures Prints(Depend(a, f))
  {
    var c := Depend(a, f);
    forall v: (A, B), rest: Bytes | c.sound(v)
      ensures c.read(c.write(v) + rest) == if c.valid(v) then Some((v, rest)) else None
    {
      assert c.write(v) + rest == a.write(v.0) + (f(v.0).write(v.1) + rest);
      assert Prints(f(v.0));
    }
  }

  lemma DependLawful<A(!new), B(!new)>(a: Codec<A>, f: A -> Codec<B>)
    requires Lawful(a) && forall x :: Lawful(f(x))
    ensures Lawful(Depend(a, f))
  {
    DependPrints(a, f);
    var c := Depend(a, f);
    forall s: Bytes | c.read(s).Some?
      ensures c.sound(c.read(s).value.0) && c.valid(c.read(s).value.0)
      ensures s == c.write(c.read(s).value.0) + c.read(s).value.1
    {
      var x := a.read(s).value;
      assert Lawful(f(x.0));
      var y := f(x.0).read(x.1).value;
      assert s == a.write(x.0) + (f(x.0).write(y.0) + y.1);
    }
  }

  /** One value after another. */
  function Pair<A, B>(a: Codec<A>, b: Codec<B>): Codec<(A, B)> { Depend(a, (x: A) => b) }

  lemma PairLawful<A(!new), B(!new)>(a: Codec<A>, b: Codec<B>)
    requires Lawful(a) && Lawful(b)
    ensures Lawful(Pair(a, b))
  {
    DependLawful(a, (x: A) => b);
  }

  lemma PairPrints<A(!new), B(!new)>(a: Codec<A>, b: Codec<B>)
    requires Prints(a) && Prints(b)
    ensures Prints(Pair(a, b))
  {
    DependPrints(a, (x: A) => b);
  }

  /** Rejects values the predicate does not admit. */
  function Refine<A>(c: Codec<A>, p: A -> bool): Codec<A>
  {
    Codec(c.write, s => var r := c.read(s); if r.Some? && p(r.value.0) then r else None, c.sound, v => c.valid(v)
      && p(v))
  }

  lemma RefineLawful<A(!new)>(c: Codec<A>, p: A -> bool)
    requires Lawful(c)
    ensures Lawful(Refine(c, p))
  {
    var d := Refine(c, p);
    forall v: A, rest: Bytes | d.sound(v)
      ensures d.read(d.write(v) + rest) == if d.valid(v) then Some((v, rest)) else None
    {
      assert c.read(c.write(v) + rest) == if c.valid(v) then Some((v, rest)) else None;
    }
  }

  /** The same bytes under another type; a value that does not survive the translation cannot be written. */
  function Iso<A, B(==)>(c: Codec<A>, to: A -> B, from: B -> A): Codec<B>
  {
    Codec(v => c.write(from(v)), s => var r := c.read(s); if r.Some? then Some((to(r.value.0), r.value.1)) else None,
          v => c.sound(from(v)) && to(from(v)) == v, v => c.valid(from(v)))
  }

  lemma IsoPrints<A(!new), B(!new)>(c: Codec<A>, to: A -> B, from: B -> A)
    requires Prints(c)
    ensures Prints(Iso(c, to, from))
  {
    var d := Iso(c, to, from);
    forall v: B, rest: Bytes | d.sound(v)
      ensures d.read(d.write(v) + rest) == if d.valid(v) then Some((v, rest)) else None
    {
      assert d.write(v) + rest == c.write(from(v)) + rest;
    }
  }

  lemma IsoLawful<A(!new), B(!new)>(c: Codec<A>, to: A -> B, from: B -> A)
    requires Lawful(c)
    requires forall u :: c.sound(u) && c.valid(u) ==> from(to(u)) == u
    ensures Lawful(Iso(c, to, from))
  {
    IsoPrints(c, to, from);
    var d := Iso(c, to, from);
    forall s: Bytes | d.read(s).Some?
      ensures d.sound(d.read(s).value.0) && d.valid(d.read(s).value.0)
      ensures s == d.write(d.read(s).value.0) + d.read(s).value.1
    {
      var r := c.read(s).value;
      assert from(to(r.0)) == r.0;
    }
  }

  lemma PairTotal<A(!new), B(!new)>(a: Codec<A>, b: Codec<B>)
    requires Total(a) && Total(b)
    ensures Total(Pair(a, b))
  {
    forall v: (A, B)
      ensures Accepts(Pair(a, b), v)
    {
      assert Accepts(a, v.0) && Accepts(b, v.1);
    }
  }

  lemma IsoTotal<A(!new), B(!new)>(c: Codec<A>, to: A -> B, from: B -> A)
    requires Total(c) && forall v :: to(from(v)) == v
    ensures Total(Iso(c, to, from))
  {
    forall v: B
      ensures Accepts(Iso(c, to, from), v)
    {
      assert Accepts(c, from(v));
    }
  }

  lemma PairAccepts<A, B>(a: Codec<A>, b: Codec<B>, v: (A, B))
    ensures Accepts(Pair(a, b), v) <==> Accepts(a, v.0) && Accepts(b, v.1)
    ensures Pair(a, b).sound(v) <==> a.sound(v.0) && b.sound(v.1)
    ensures Pair(a, b).valid(v) <==> a.valid(v.0) && b.valid(v.1)
  {
  }

  lemma PairWrite<A, B>(a: Codec<A>, b: Codec<B>, v: (A, B))
    ensures Pair(a, b).write(v) == a.write(v.0) + b.write(v.1)
  {
  }

  lemma IsoWrite<A, B>(c: Codec<A>, to: A -> B, from: B -> A, v: B)
    ensures Iso(c, to, from).write(v) == c.write(from(v))
  {
  }

  /** Accepts nothing and writes nothing. */
  function Never<A>(): Codec<A> { Codec((v: A) => [], (s: Bytes) => None, (v: A) => false, (v: A) => false) }

  lemma NeverLawful<A(!new)>()
    ensures Lawful(Never<A>())
  {
  }

  // ---- Counted lists ----

  function WriteAll<A>(c: Codec<A>, vs: seq<A>): Bytes
  {
    if vs == [] then [] else c.write(vs[0]) + WriteAll(c, vs[1..])
  }

  function ReadAll<A>(c: Codec<A>, n: nat, s: Bytes): (r: Option<(seq<A>, Bytes)>)
    ensures r.Some? ==> |r.value.0| == n
  {
    if n == 0 then Some(([], s))
    else
      var x := c.read(s);
      if x.None? then None
      else
        var xs := ReadAll(c, n - 1, x.value.1);
        if xs.None? then None else Some(([x.value.0] + xs.value.0, xs.value.1))
  }

  predicate AllSound<A>(c: Codec<A>, vs: seq<A>) { forall i :: 0 <= i < |vs| ==> c.sound(vs[i]) }
  predicate AllValid<A>(c: Codec<A>, vs: seq<A>) { forall i :: 0 <= i < |vs| ==> c.valid(vs[i]) }

  lemma {:induction false} ReadWritten<A(!new)>(c: Codec<A>, vs: seq<A>, rest: Bytes)
    requires Prints(c) && AllSound(c, vs)
    ensures ReadAll(c, |vs|, WriteAll(c, vs) + rest) == if AllValid(c, vs) then Some((vs, rest)) else None
  {
    if vs == [] {
      assert WriteAll(c, vs) + rest == rest;
    } else {
      assert WriteAll(c, vs) + rest == c.write(vs[0]) + (WriteAll(c, vs[1..]) + rest);
      ReadWritten(c, vs[1..], rest);
      assert vs == [vs[0]] + vs[1..];
      assert AllValid(c, vs) <==> c.valid(vs[0]) && AllValid(c, vs[1..]);
    }
  }

  lemma {:induction false} WrittenRead<A(!new)>(c: Codec<A>, n: nat, s: Bytes)
    requires Parses(c) && ReadAll(c, n, s).Some?
    ensures var r := ReadAll(c, n, s).value;
            AllSound(c, r.0) && AllValid(c, r.0) && s == WriteAll(c, r.0) + r.1
  {
    if n > 0 {
      var x := c.read(s).value;
      WrittenRead(c, n - 1, x.1);
      var xs := ReadAll(c, n - 1, x.1).value;
      var r := ReadAll(c, n, s).value;
      assert r.0[0] == x.0 && r.0[1..] == xs.0;
      assert s == c.write(x.0) + (WriteAll(c, xs.0) + xs.1);
    }
  }

  function ListRead<A>(c: Codec<A>, max: nat, s: Bytes): Option<(seq<A>, Bytes)>
  {
    var n := FixedRead(4, s);
    if n.None? || n.value.0 > max then None else ReadAll(c, n.value.0, n.value.1)
  }

  /** decode_vector(): a 32-bit count, bounded, and that many elements. */
  function ListOf<A>(c: Codec<A>, max: nat): Codec<seq<A>>
  {
    Codec((vs: seq<A>) => LE(|vs|, 4) + WriteAll(c, vs), s => ListRead(c, max, s),
          (vs: seq<A>) => |vs| < TWO_32 && AllSound(c, vs), (vs: seq<A>) => |vs| <= max && AllValid(c, vs))
  }

  lemma ListPrints<A(!new)>(c: Codec<A>, max: nat)
    requires Prints(c)
    ensures Prints(ListOf(c, max))
  {
    hide LE, Nat, WriteAll, ReadAll, Prints;
    Pow256Values();
    FixedLawful(4);
    var d := ListOf(c, max);
    forall vs: seq<A>, rest: Bytes | d.sound(vs)
      ensures d.read(d.write(vs) + rest) == if d.valid(vs) then Some((vs, rest)) else None
    {
      assert d.write(vs) + rest == LE(|vs|, 4) + (WriteAll(c, vs) + rest);
      FixedReads(4, |vs|, WriteAll(c, vs) + rest);
      ReadWritten(c, vs, rest);
    }
    ShowPrints(d);
  }

  lemma ListLawful<A(!new)>(c: Codec<A>, max: nat)
    requires Lawful(c)
    ensures Lawful(ListOf(c, max))
  {
    hide LE, Nat, WriteAll, ReadAll, Prints;
    Pow256Values();
    FixedLawful(4);
    ListPrints(c, max);
    var d := ListOf(c, max);
    forall s: Bytes | d.read(s).Some?
      ensures d.sound(d.read(s).value.0) && d.valid(d.read(s).value.0)
      ensures s == d.write(d.read(s).value.0) + d.read(s).value.1
    {
      var n := FixedRead(4, s).value;
      FixedWrites(4, s);
      WrittenRead(c, n.0, n.1);
      var r := ReadAll(c, n.0, n.1).value;
      assert s == LE(n.0, 4) + (WriteAll(c, r.0) + r.1);
    }
  }

  lemma ShowPrints<A(!new)>(c: Codec<A>)
    requires forall v: A, rest: Bytes {:trigger c.write(v) + rest} :: c.sound(v) ==>
               c.read(c.write(v) + rest) == if c.valid(v) then Some((v, rest)) else None
    ensures Prints(c)
  {
  }

  // ---- Integers and texts ----

  function FixedRead(n: nat, s: Bytes): Option<(nat, Bytes)>
  {
    if |s| < n then None else Some((Nat(s[..n]), s[n..]))
  }

  /** An unsigned integer in n bytes, least significant first. */
  function Fixed(n: nat): Codec<nat>
  {
    Codec(x => LE(x, n), s => FixedRead(n, s), x => x < Pow256(n), x => true)
  }

  lemma FixedReads(n: nat, x: nat, rest: Bytes)
    requires x < Pow256(n)
    ensures FixedRead(n, LE(x, n) + rest) == Some((x, rest))
  {
    hide LE, Nat, Pow256;
    NatOfLE(x, n);
    assert (LE(x, n) + rest)[..n] == LE(x, n) && (LE(x, n) + rest)[n..] == rest;
  }

  lemma FixedWrites(n: nat, s: Bytes)
    requires FixedRead(n, s).Some?
    ensures FixedRead(n, s).value.0 < Pow256(n) && s == LE(FixedRead(n, s).value.0, n) + FixedRead(n, s).value.1
  {
    hide LE, Nat, Pow256;
    LEOfNat(s[..n]);
    assert |s[..n]| == n && s == s[..n] + s[n..];
  }

  lemma FixedLawful(n: nat)
    ensures Lawful(Fixed(n))
  {
    var c := Fixed(n);
    forall x: nat, rest: Bytes | c.sound(x)
      ensures c.read(c.write(x) + rest) == Some((x, rest))
    {
      FixedReads(n, x, rest);
    }
    forall s: Bytes | c.read(s).Some?
      ensures c.sound(c.read(s).value.0) && s == c.write(c.read(s).value.0) + c.read(s).value.1
    {
      FixedWrites(n, s);
    }
  }

  function TextRead(max: nat, s: Bytes): Option<(Bytes, Bytes)>
  {
    var n := FixedRead(4, s);
    if n.None? || n.value.0 > max || n.value.0 > |n.value.1| then None
    else Some((n.value.1[..n.value.0], n.value.1[n.value.0..]))
  }

  /** A length-prefixed byte string of bounded length. */
  function TextOf(max: nat): Codec<Bytes>
  {
    Codec((t: Bytes) => LE(|t|, 4) + t, s => TextRead(max, s), (t: Bytes) => |t| < TWO_32, (t: Bytes) => |t| <= max)
  }

  lemma TextLawful(max: nat)
    ensures Lawful(TextOf(max))
  {
    hide LE, Nat;
    Pow256Values();
    FixedLawful(4);
    var n := Fixed(4);
    var c := TextOf(max);
    forall t: Bytes, rest: Bytes | c.sound(t)
      ensures c.read(c.write(t) + rest) == if c.valid(t) then Some((t, rest)) else None
    {
      assert c.write(t) + rest == n.write(|t|) + (t + rest);
      assert n.read(n.write(|t|) + (t + rest)) == Some((|t|, t + rest));
      assert (t + rest)[..|t|] == t && (t + rest)[|t|..] == rest;
    }
    forall s: Bytes | c.read(s).Some?
      ensures c.sound(c.read(s).value.0) && c.valid(c.read(s).value.0)
      ensures s == c.write(c.read(s).value.0) + c.read(s).value.1
    {
      var r := n.read(s).value;
      assert s == n.write(r.0) + r.1;
      assert r.1 == r.1[..r.0] + r.1[r.0..];
    }
  }
}
