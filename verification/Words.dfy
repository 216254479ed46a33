// Unsigned machine words as bounded integers, and bitwise exclusive-or on them.
//
// The source computes on uint8_t .. uint64_t.  Here a word is an integer with an
// explicit range; `x >> n` is `x / 2^n`, `x & (2^n - 1)` is `x % 2^n`, and `x ^ y`
// is `Xor(x, y)`, defined bit by bit.

module Words {
  type U8 = x: int | 0 <= x < 0x100
  type U16 = x: int | 0 <= x < 0x1_0000
  type U32 = x: int | 0 <= x < 0x1_0000_0000
  type U64 = x: int | 0 <= x < 0x1_0000_0000_0000_0000
  type I64 = x: int | -0x8000_0000_0000_0000 <= x < 0x8000_0000_0000_0000

  const TWO_32: int := 0x1_0000_0000
  const TWO_64: int := 0x1_0000_0000_0000_0000

  type Bytes = seq<U8>

  /** An encoder never grows beyond 8 MiB. */
  const ENCODER_CEILING: nat := 0x80_0000

  function Pow2(k: nat): (r: nat)
    ensures r >= 1
  {
    if k == 0 then 1 else 2 * Pow2(k - 1)
  }

  function Xor(a: nat, b: nat): nat
    decreases a + b
  {
    if a == 0 && b == 0 then 0
    else (if a % 2 == b % 2 then 0 else 1) + 2 * Xor(a / 2, b / 2)
  }

  lemma {:induction false} XorZero(a: nat)
    ensures Xor(a, 0) == a && Xor(0, a) == a
  {
    if a != 0 { XorZero(a / 2); }
  }

  lemma {:induction false} XorSelf(a: nat)
    ensures Xor(a, a) == 0
  {
    if a != 0 { XorSelf(a / 2); }
  }

  lemma {:induction false} XorCommutes(a: nat, b: nat)
    ensures Xor(a, b) == Xor(b, a)
    decreases a + b
  {
    if a != 0 || b != 0 { XorCommutes(a / 2, b / 2); }
  }

  /** The low bit and the remaining bits of an exclusive-or are those of its operands. */
  lemma XorParts(a: nat, b: nat)
    ensures Xor(a, b) % 2 == (if a % 2 == b % 2 then 0 else 1)
    ensures Xor(a, b) / 2 == Xor(a / 2, b / 2)
  {
  }

  lemma {:induction false} XorAssociates(a: nat, b: nat, c: nat)
    ensures Xor(Xor(a, b), c) == Xor(a, Xor(b, c))
    decreases a + b + c
  {
    XorParts(a, b);
    XorParts(b, c);
    if a != 0 || b != 0 || c != 0 {
      XorAssociates(a / 2, b / 2, c / 2);
      XorParts(Xor(a, b), c);
      XorParts(a, Xor(b, c));
    }
  }

  /** Exclusive-or with a fixed word can be undone. */
  lemma XorCancels(a: nat, b: nat, c: nat)
    requires Xor(a, c) == Xor(b, c)
    ensures a == b
  {
    XorAssociates(a, c, c);
    XorAssociates(b, c, c);
    XorSelf(c);
    XorZero(a);
    XorZero(b);
  }

  lemma {:induction false} XorBound(a: nat, b: nat, k: nat)
    requires a < Pow2(k) && b < Pow2(k)
    ensures Xor(a, b) < Pow2(k)
  {
    if k == 0 {
    } else {
      XorBound(a / 2, b / 2, k - 1);
      XorParts(a, b);
    }
  }

  /** A word whose bit `k` is set keeps it under exclusive-or with a word that stays below that bit. */
  lemma {:induction false} XorTopBit(a: nat, b: nat, k: nat)
    requires a < Pow2(k) <= b < Pow2(k + 1)
    ensures Pow2(k) <= Xor(a, b)
  {
    if k == 0 {
      assert a == 0 && b == 1;
      XorZero(1);
    } else {
      XorTopBit(a / 2, b / 2, k - 1);
      XorParts(a, b);
    }
  }

  /** y moved up by k bits. */
  function ShiftLeft(y: nat, k: nat): nat
  {
    if k == 0 then y else 2 * ShiftLeft(y, k - 1)
  }

  /** A word of k bits only reaches the k low bits of the word it is exclusive-ored into. */
  lemma {:induction false} XorLowPart(q: nat, r: nat, b: nat, k: nat)
    requires r < Pow2(k) && b < Pow2(k)
    ensures Xor(ShiftLeft(q, k) + r, b) == ShiftLeft(q, k) + Xor(r, b)
  {
    if k == 0 {
      XorZero(q);
    } else {
      var w := ShiftLeft(q, k - 1);
      XorLowPart(q, r / 2, b / 2, k - 1);
      XorParts(2 * w + r, b);
      XorParts(r, b);
    }
  }

  /** Words on disjoint bit ranges combine by addition. */
  lemma {:induction false} XorDisjoint(a: nat, y: nat, k: nat)
    requires a < Pow2(k)
    ensures Xor(a, ShiftLeft(y, k)) == a + ShiftLeft(y, k)
  {
    if k == 0 {
      XorZero(y);
    } else {
      XorDisjoint(a / 2, y, k - 1);
      XorParts(a, ShiftLeft(y, k));
    }
  }

  /** Exclusive-or of two words, exclusive-ored with two more, can be regrouped pairwise. */
  lemma XorInterchange(a: nat, b: nat, c: nat, d: nat)
    ensures Xor(Xor(a, b), Xor(c, d)) == Xor(Xor(a, c), Xor(b, d))
  {
    XorAssociates(a, b, Xor(c, d));
    XorAssociates(b, c, d);
    XorCommutes(b, c);
    XorAssociates(c, b, d);
    XorAssociates(a, c, Xor(b, d));
  }

  lemma Pow2Values()
    ensures Pow2(8) == 0x100 && Pow2(31) == 0x8000_0000 && Pow2(32) == TWO_32
  {
    assert Pow2(4) == 16;
    assert Pow2(8) == 256;
    assert Pow2(12) == 4096;
    assert Pow2(16) == 65536;
    assert Pow2(20) == 0x10_0000;
    assert Pow2(24) == 0x100_0000;
    assert Pow2(28) == 0x1000_0000;
    assert Pow2(31) == 0x8000_0000;
  }

  lemma ShiftLeftByte(y: nat)
    ensures ShiftLeft(y, 8) == 256 * y
  {
    assert ShiftLeft(y, 1) == 2 * y;
    assert ShiftLeft(y, 2) == 4 * y;
    assert ShiftLeft(y, 3) == 8 * y;
    assert ShiftLeft(y, 4) == 16 * y;
    assert ShiftLeft(y, 5) == 32 * y;
    assert ShiftLeft(y, 6) == 64 * y;
    assert ShiftLeft(y, 7) == 128 * y;
  }

  lemma Xor32(a: U32, b: U32)
    ensures Xor(a, b) < TWO_32
  {
    Pow2Values();
    XorBound(a, b, 32);
  }
}
