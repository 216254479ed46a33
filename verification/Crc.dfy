// CRC-32C: the table-driven form of src/digest.cpp against the bit-serial definition
// (reflected Castagnoli polynomial), and the damage it is guaranteed to notice.

module Crc {
  import opened Words
  import opened LittleEndian

  const POLYNOMIAL: U32 := 0x82F63B78
  const ALL_ONES: U32 := 0xFFFF_FFFF

  /** One division step of the reflected register. */
  function Shift(c: U32): (r: U32)
  {
    Xor32(c / 2, POLYNOMIAL);
    if c % 2 == 1 then Xor(c / 2, POLYNOMIAL) else c / 2
  }

  function Shifts(c: U32, n: nat): (r: U32)
    decreases n, c
  {
    if n == 0 then c else Shifts(Shift(c), n - 1)
  }

  // ---- The definition: message bits enter one at a time, low bit first ----

  function FeedBits(s: U32, bits: nat, n: nat): (r: U32)
    decreases n, s
  {
    if n == 0 then s
    else Xor32(s, bits % 2); FeedBits(Shift(Xor(s, bits % 2)), bits / 2, n - 1)
  }

  function FeedBytes(s: U32, data: Bytes): (r: U32)
    decreases |data|
  {
    if data == [] then s else FeedBytes(FeedBits(s, data[0], 8), data[1..])
  }

  /** The CRC-32C of a message, bit by bit. */
  function Crc32c(data: Bytes): (r: U32)
  {
    Xor32(FeedBytes(ALL_ONES, data), ALL_ONES);
    Xor(FeedBytes(ALL_ONES, data), ALL_ONES)
  }

  // ---- The register step is linear and invertible ----

  lemma ShiftLinear(c: U32, d: U32)
    ensures Xor(c, d) < TWO_32
    ensures Shift(Xor(c, d)) == Xor(Shift(c), Shift(d))
  {
    Xor32(c, d);
    XorParts(c, d);
    var h, k, p := c / 2, d / 2, POLYNOMIAL;
    XorSelf(p);
    XorZero(p);
    XorZero(Xor(h, k));
    XorZero(h);
    XorZero(k);
    XorInterchange(h, p, k, p);
    XorInterchange(h, p, k, 0);
    XorInterchange(h, 0, k, p);
  }

  /** The polynomial's top coefficient marks, in the result, whether a bit was shifted out. */
  lemma ShiftInjective(c: U32, d: U32)
    requires Shift(c) == Shift(d)
    ensures c == d
  {
    Pow2Values();
    XorTopBit(c / 2, POLYNOMIAL, 31);
    XorTopBit(d / 2, POLYNOMIAL, 31);
    if c % 2 == 1 && d % 2 == 1 {
      XorCancels(c / 2, d / 2, POLYNOMIAL);
    }
  }

  lemma {:induction false} ShiftsLinear(c: U32, d: U32, n: nat)
    ensures Xor(c, d) < TWO_32
    ensures Shifts(Xor(c, d), n) == Xor(Shifts(c, n), Shifts(d, n))
    decreases n
  {
    ShiftLinear(c, d);
    if n > 0 { ShiftsLinear(Shift(c), Shift(d), n - 1); }
  }

  lemma {:induction false} ShiftsInjective(c: U32, d: U32, n: nat)
    requires Shifts(c, n) == Shifts(d, n)
    ensures c == d
    decreases n
  {
    if n > 0 {
      ShiftsInjective(Shift(c), Shift(d), n - 1);
      ShiftInjective(c, d);
    }
  }

  lemma {:induction false} ShiftsAdd(c: U32, m: nat, n: nat)
    ensures Shifts(c, m + n) == Shifts(Shifts(c, m), n)
    decreases m
  {
    if m > 0 { ShiftsAdd(Shift(c), m - 1, n); }
  }

  /** Bits above the n lowest only move down while the register shifts n times. */
  lemma {:induction false} ShiftsOfMultiple(y: nat, n: nat)
    requires ShiftLeft(y, n) < TWO_32
    ensures Shifts(ShiftLeft(y, n), n) == y
  {
    if n == 0 {
    } else {
      assert Shift(ShiftLeft(y, n)) == ShiftLeft(y, n - 1);
      ShiftsOfMultiple(y, n - 1);
    }
  }

  /** Feeding bits one by one is exclusive-oring them in at once and shifting that often. */
  lemma {:induction false} FeedBitsAtOnce(s: U32, bits: nat, n: nat)
    requires bits < Pow2(n) && bits < TWO_32
    ensures Xor(s, bits) < TWO_32
    ensures FeedBits(s, bits, n) == Shifts(Xor(s, bits), n)
    decreases n
  {
    Xor32(s, bits);
    if n == 0 {
      XorZero(s);
    } else {
      var low, high := bits % 2, bits / 2;
      Xor32(s, low);
      FeedBitsAtOnce(Shift(Xor(s, low)), high, n - 1);
      assert Pow2(1) == 2 && ShiftLeft(high, 1) == 2 * high;
      XorDisjoint(low, high, 1);
      XorAssociates(s, low, 2 * high);
      ShiftLinear(Xor(s, low), 2 * high);
      assert Shift(2 * high) == high;
    }
  }

  // ---- The table-driven form ----

  /** The 256 precomputed byte steps. */
  function Table(): (t: seq<U32>)
    ensures |t| == 256
    ensures forall i :: 0 <= i < 256 ==> t[i] == Shifts(i, 8)
  {
    seq(256, i requires 0 <= i < 256 => Shifts(i, 8))
  }

  method MakeTable() returns (table: array<U32>)
    ensures fresh(table)
    ensures table[..] == Table()
  {
    table := new U32[256](_ => 0);
    var index := 0;
    while index < 256
      invariant 0 <= index <= 256
      invariant forall i :: 0 <= i < index ==> table[i] == Shifts(i, 8)
    {
      var crc: U32 := index;
      var bit := 0;
      while bit < 8
        invariant 0 <= bit <= 8
        invariant Shifts(crc, 8 - bit) == Shifts(index, 8)
        invariant forall i :: 0 <= i < index ==> table[i] == Shifts(i, 8)
      {
        // The source masks the polynomial with 0 - (crc & 1): all ones or all zeros.
        var mask: U32 := if crc % 2 == 1 then POLYNOMIAL else 0;
        Xor32(crc / 2, mask);
        XorZero(crc / 2);
        crc := Xor(crc / 2, mask);
        bit := bit + 1;
      }
      table[index] := crc;
      index := index + 1;
    }
  }

  /** Exclusive-oring a word above the n low bits, then shifting n times, adds that word moved down. */
  lemma ShiftsOfXorHigh(c: U32, rest: nat, high: nat, n: nat)
    requires high == ShiftLeft(rest, n) < TWO_32
    ensures Xor(c, high) < TWO_32
    ensures Shifts(Xor(c, high), n) == Xor(Shifts(c, n), rest)
  {
    ShiftsLinear(c, high, n);
    ShiftsOfMultiple(rest, n);
  }

  /** A byte only reaches the low eight bits of the register. */
  lemma XorHighPart(s: U32, b: U8)
    ensures Xor(s, b) / 256 == s / 256
  {
    Pow2Values();
    ShiftLeftByte(s / 256);
    XorLowPart(s / 256, s % 256, b, 8);
    XorBound(s % 256, b, 8);
  }

  /** One table lookup does the work of eight division steps. */
  lemma TableStep(s: U32, b: U8)
    ensures Xor(s, b) < TWO_32
    ensures FeedBits(s, b, 8) == Xor(Table()[Xor(s, b) % 256], s / 256)
  {
    Pow2Values();
    FeedBitsAtOnce(s, b, 8);
    XorHighPart(s, b);
    var low, rest := Xor(s, b) % 256, Xor(s, b) / 256;
    ShiftLeftByte(rest);
    XorDisjoint(low, rest, 8);
    ShiftsOfXorHigh(low, rest, 256 * rest, 8);
  }

  lemma {:induction false} FeedBytesAppend(s: U32, a: Bytes, b: Bytes)
    ensures FeedBytes(s, a + b) == FeedBytes(FeedBytes(s, a), b)
    decreases |a|
  {
    if a == [] {
      assert a + b == b;
    } else {
      assert (a + b)[1..] == a[1..] + b;
      FeedBytesAppend(FeedBits(s, a[0], 8), a[1..], b);
    }
  }

  /** The streaming calculator of the source. */
  class Calculator {
    var state: U32
    const table: array<U32>

    ghost predicate Valid()
      reads this, table
    {
      table[..] == Table()
    }

    constructor ()
      ensures Valid() && fresh(table) && state == ALL_ONES
    {
      var t := MakeTable();
      table := t;
      state := ALL_ONES;
    }

    method Update(data: Bytes)
      requires Valid()
      modifies this`state
      ensures Valid() && state == FeedBytes(old(state), data)
    {
      var s := state;
      var i := 0;
      while i < |data|
        invariant 0 <= i <= |data|
        invariant s == FeedBytes(old(state), data[..i])
      {
        TableStep(s, data[i]);
        var index := Xor(s, data[i]) % 256;
        assert table[..][index] == Table()[index];
        ghost var before := s;
        s := Xor(table[index], s / 256);
        FeedBytesAppend(old(state), data[..i], [data[i]]);
        assert data[..i + 1] == data[..i] + [data[i]];
        assert FeedBytes(before, [data[i]]) == s;
        i := i + 1;
      }
      assert data[..i] == data;
      state := s;
    }

    method Finish() returns (r: U32)
      ensures Xor(state, ALL_ONES) < TWO_32 && r == Xor(state, ALL_ONES)
    {
      Xor32(state, ALL_ONES);
      r := Xor(state, ALL_ONES);
    }
  }

  /** crc32c(): one update over the whole message. */
  method Compute(data: Bytes) returns (r: U32)
    ensures r == Crc32c(data)
  {
    var calculator := new Calculator();
    calculator.Update(data);
    r := calculator.Finish();
  }

  /** Splitting a message over several updates does not change the register. */
  lemma {:induction false} UpdatesConcatenate(s: U32, chunks: seq<Bytes>)
    ensures FeedBytes(s, Flatten(chunks)) == FeedAll(s, chunks)
    decreases |chunks|
  {
    if chunks != [] {
      FeedBytesAppend(s, chunks[0], Flatten(chunks[1..]));
      UpdatesConcatenate(FeedBytes(s, chunks[0]), chunks[1..]);
    }
  }

  function Flatten(chunks: seq<Bytes>): (r: Bytes)
  {
    if chunks == [] then [] else chunks[0] + Flatten(chunks[1..])
  }

  function FeedAll(s: U32, chunks: seq<Bytes>): (r: U32)
    decreases |chunks|
  {
    if chunks == [] then s else FeedAll(FeedBytes(s, chunks[0]), chunks[1..])
  }

  /** However a message is cut into updates, the checksum is that of the whole message. */
  method ComputeInPieces(chunks: seq<Bytes>) returns (r: U32)
    ensures r == Crc32c(Flatten(chunks))
  {
    hide FeedBytes, Table;
    var calculator := new Calculator();
    for i := 0 to |chunks|
      invariant fresh(calculator) && calculator.Valid()
      invariant FeedAll(calculator.state, chunks[i..]) == FeedAll(ALL_ONES, chunks)
    {
      assert chunks[i..][0] == chunks[i] && chunks[i..][1..] == chunks[i + 1..];
      calculator.Update(chunks[i]);
    }
    UpdatesConcatenate(ALL_ONES, chunks);
    r := calculator.Finish();
  }

  // ---- What damage the checksum notices ----

  /** A further word, entering after a byte, can be exclusive-ored in before that byte's shifts. */
  lemma LaterBytesMoveUp(s: U32, b: U8, rest: nat, high: nat, n: nat)
    requires high == ShiftLeft(rest, n) < TWO_32 && b < Pow2(n) && b + high < TWO_32
    ensures Xor(s, b + high) < TWO_32
    ensures Xor(FeedBits(s, b, n), rest) == Shifts(Xor(s, b + high), n)
  {
    FeedBitsAtOnce(s, b, n);
    ShiftsOfXorHigh(Xor(s, b), rest, high, n);
    XorAssociates(s, b, high);
    XorDisjoint(b, rest, n);
    Xor32(s, b + high);
  }

  /** Up to four bytes fed one by one are one word exclusive-ored in at once. */
  lemma {:induction false} FeedWord(s: U32, w: Bytes)
    requires |w| <= 4
    ensures Nat(w) < TWO_32 && Xor(s, Nat(w)) < TWO_32
    ensures FeedBytes(s, w) == Shifts(Xor(s, Nat(w)), 8 * |w|)
    decreases |w|
  {
    NatBelowWord(w);
    Xor32(s, Nat(w));
    if w == [] {
      XorZero(s);
    } else {
      var rest := w[1..];
      NatBelowWord(rest);
      FeedWord(FeedBits(s, w[0], 8), rest);
      Pow2Values();
      ShiftLeftByte(Nat(rest));
      LaterBytesMoveUp(s, w[0], Nat(rest), 256 * Nat(rest), 8);
      ShiftsAdd(Xor(s, Nat(w)), 8, 8 * |rest|);
      assert 8 + 8 * |rest| == 8 * |w|;
    }
  }

  lemma {:induction false} NatBelowWord(w: Bytes)
    requires |w| <= 4
    ensures Nat(w) < TWO_32
    ensures |w| <= 3 ==> 256 * Nat(w) < TWO_32
  {
    Pow256Values();
    assert Pow256(3) == 0x100_0000;
    assert |w| == 0 || |w| == 1 || |w| == 2 || |w| == 3 || |w| == 4;
  }

  lemma {:induction false} FeedBytesInjective(s: U32, t: U32, data: Bytes)
    requires FeedBytes(s, data) == FeedBytes(t, data)
    ensures s == t
    decreases |data|
  {
    if data != [] {
      var b := data[0];
      FeedBytesInjective(FeedBits(s, b, 8), FeedBits(t, b, 8), data[1..]);
      Pow2Values();
      FeedBitsAtOnce(s, b, 8);
      FeedBitsAtOnce(t, b, 8);
      ShiftsInjective(Xor(s, b), Xor(t, b), 8);
      XorCancels(s, t, b);
    }
  }

  /** Any damage confined to four adjacent bytes changes the checksum. */
  lemma BurstDetected(before: Bytes, w: Bytes, v: Bytes, after: Bytes)
    requires |w| == |v| <= 4 && w != v
    ensures Crc32c(before + w + after) != Crc32c(before + v + after)
  {
    var s := FeedBytes(ALL_ONES, before);
    FeedBytesAppend(ALL_ONES, before + w, after);
    FeedBytesAppend(ALL_ONES, before, w);
    FeedBytesAppend(ALL_ONES, before + v, after);
    FeedBytesAppend(ALL_ONES, before, v);
    if Crc32c(before + w + after) == Crc32c(before + v + after) {
      XorCancels(FeedBytes(ALL_ONES, before + w + after), FeedBytes(ALL_ONES, before + v + after), ALL_ONES);
      FeedBytesInjective(FeedBytes(s, w), FeedBytes(s, v), after);
      FeedWord(s, w);
      FeedWord(s, v);
      ShiftsInjective(Xor(s, Nat(w)), Xor(s, Nat(v)), 8 * |w|);
      XorCommutes(s, Nat(w));
      XorCommutes(s, Nat(v));
      XorCancels(Nat(w), Nat(v), s);
      NatInjective(w, v);
    }
  }

  /** Two messages of one length that differ in exactly one byte have different checksums. */
  lemma OneByteDetected(a: Bytes, b: Bytes, i: nat)
    requires |a| == |b| && i < |a| && a[i] != b[i]
    requires a[..i] == b[..i] && a[i + 1..] == b[i + 1..]
    ensures Crc32c(a) != Crc32c(b)
  {
    assert a == a[..i] + [a[i]] + a[i + 1..];
    assert b == b[..i] + [b[i]] + b[i + 1..];
    BurstDetected(a[..i], [a[i]], [b[i]], a[i + 1..]);
  }
}
