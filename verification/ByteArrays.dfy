// Writing and reading fixed-width integers in a byte buffer, one byte at a time.

module ByteArrays {
  import opened Words
  import opened LittleEndian
  import opened Log

  /** store_u16/u32/u64(): the n low bytes of x at the offset, everything else untouched. */
  method StoreWord(a: array<U8>, at: nat, n: nat, x: nat)
    requires at + n <= a.Length
    modifies a
    ensures a[at..at + n] == LE(x, n)
    ensures a[..at] == old(a[..at]) && a[at + n..] == old(a[at + n..])
  {
    var i, rest := 0, x;
    while i < n
      invariant 0 <= i <= n
      invariant LE(x, n)[i..] == LE(rest, n - i)
      invariant forall k :: 0 <= k < i ==> a[at + k] == LE(x, n)[k]
      invariant forall k :: 0 <= k < a.Length && !(at <= k < at + i) ==> a[k] == old(a[k])
    {
      assert LE(x, n)[i] == LE(rest, n - i)[0];
      assert LE(x, n)[i + 1..] == LE(rest, n - i)[1..];
      a[at + i] := rest % 256;
      rest := rest / 256;
      i := i + 1;
    }
    assert forall k :: 0 <= k < n ==> a[at..at + n][k] == LE(x, n)[k];
  }

  /** load_u16/u32/u64() */
  method LoadWord(b: Bytes, at: nat, n: nat) returns (x: nat)
    requires at + n <= |b|
    ensures x == Load(b, at, n)
  {
    var i := n;
    x := 0;
    assert b[at + n..at + n] == [];
    while i > 0
      invariant 0 <= i <= n && x == Nat(b[at + i..at + n])
    {
      i := i - 1;
      assert b[at + i..at + n] == [b[at + i]] + b[at + i + 1..at + n];
      x := b[at + i] + 256 * x;
    }
  }

  /** memcpy() */
  method StoreBytes(a: array<U8>, at: nat, b: Bytes)
    requires at + |b| <= a.Length
    modifies a
    ensures a[at..at + |b|] == b
    ensures a[..at] == old(a[..at]) && a[at + |b|..] == old(a[at + |b|..])
  {
    var i := 0;
    while i < |b|
      invariant 0 <= i <= |b|
      invariant forall k :: 0 <= k < i ==> a[at + k] == b[k]
      invariant forall k :: 0 <= k < a.Length && !(at <= k < at + i) ==> a[k] == old(a[k])
    {
      a[at + i] := b[i];
      i := i + 1;
    }
  }

  /** Store a word right after the bytes written so far. */
  method Extend(a: array<U8>, at: nat, n: nat, x: nat)
    requires at + n <= a.Length
    modifies a
    ensures a[..at + n] == old(a[..at]) + LE(x, n)
  {
    StoreWord(a, at, n, x);
    assert a[..at + n] == a[..at] + a[at..at + n];
  }

  method ExtendBytes(a: array<U8>, at: nat, b: Bytes)
    requires at + |b| <= a.Length
    modifies a
    ensures a[..at + |b|] == old(a[..at]) + b
  {
    StoreBytes(a, at, b);
    assert a[..at + |b|] == a[..at] + a[at..at + |b|];
  }
}
