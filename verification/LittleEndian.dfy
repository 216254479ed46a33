// Fixed-width little-endian integers: what the encoder's u8/u16/u32/u64, the store's
// store_u16/32/64 and the frame codec write, and what their loads read back.

module LittleEndian {
  import opened Words

  /** 256 to the power n: the number of values n bytes can hold. */
  function Pow256(n: nat): (r: nat)
    ensures r >= 1
  {
    if n == 0 then 1 else 256 * Pow256(n - 1)
  }

  /** The n low bytes of x, least significant first. */
  function LE(x: nat, n: nat): (r: Bytes)
    ensures |r| == n
  {
    if n == 0 then [] else [x % 256] + LE(x / 256, n - 1)
  }

  /** Byte i is the digit of weight 256 to the i. */
  lemma {:induction false} Digit(x: nat, n: nat, i: nat)
    requires i < n
    ensures LE(x, n)[i] == x / Pow256(i) % 256
  {
    if i > 0 {
      Digit(x / 256, n - 1, i - 1);
      assert LE(x, n)[i] == LE(x / 256, n - 1)[i - 1];
      var p := Pow256(i - 1);
      DivideTwice(x, p);
    }
  }

  lemma DivideTwice(x: nat, b: nat)
    requires b > 0
    ensures x / (256 * b) == x / 256 / b
  {
    var y, q, r := x / 256, x / 256 / b, x / 256 % b;
    assert y == b * q + r;
    Regroup(b, q);
    Quotient(x, 256 * b, q, 256 * r + x % 256);
  }

  lemma Regroup(b: nat, q: nat)
    ensures 256 * b * q == 256 * (b * q)
  {
  }

  lemma Quotient(x: nat, d: nat, q: nat, r: nat)
    requires d > 0 && x == d * q + r && r < d
    ensures x / d == q
  {
    var k := x / d;
    assert x == d * k + x % d;
    assert d * (k - q) == d * k - d * q;
    SmallMultiple(d, k - q);
  }

  lemma SmallMultiple(d: int, m: int)
    requires 0 - d < d * m < d
    ensures m == 0
  {
    assert m >= 1 ==> d * m >= d;
    assert m <= -1 ==> d * m <= 0 - d;
  }

  /** The number that little-endian bytes denote. */
  function Nat(b: Bytes): (r: nat)
    ensures r < Pow256(|b|)
  {
    if b == [] then 0 else b[0] + 256 * Nat(b[1..])
  }

  lemma {:induction false} NatOfLE(x: nat, n: nat)
    requires x < Pow256(n)
    ensures Nat(LE(x, n)) == x
  {
    if n > 0 {
      NatOfLE(x / 256, n - 1);
      assert LE(x, n)[1..] == LE(x / 256, n - 1);
    }
  }

  lemma {:induction false} LEOfNat(b: Bytes)
    ensures LE(Nat(b), |b|) == b
  {
    if b != [] {
      LEOfNat(b[1..]);
      assert Nat(b) % 256 == b[0] && Nat(b) / 256 == Nat(b[1..]);
      assert b == [b[0]] + b[1..];
    }
  }

  lemma NatInjective(a: Bytes, b: Bytes)
    requires |a| == |b| && Nat(a) == Nat(b)
    ensures a == b
  {
    LEOfNat(a);
    LEOfNat(b);
  }

  lemma LEInjective(x: nat, y: nat, n: nat)
    requires x < Pow256(n) && y < Pow256(n) && LE(x, n) == LE(y, n)
    ensures x == y
  {
    NatOfLE(x, n);
    NatOfLE(y, n);
  }

  lemma Pow256Values()
    ensures Pow256(1) == 0x100 && Pow256(2) == 0x1_0000 && Pow256(4) == TWO_32 && Pow256(8) == TWO_64
  {
    assert Pow256(1) == 0x100;
    assert Pow256(2) == 0x1_0000;
    assert Pow256(4) == TWO_32;
    assert Pow256(6) == 0x1_0000_0000_0000;
  }
}
