// SHA-256 (FIPS 180-4): the streaming hasher of src/digest.cpp against the definition
// of the hash as a fold of the compression function over the padded message.

module Sha256 {
  import opened Words

  // ---- The definition ----

  // The round constants, eight to a row.
  const K0: seq<bv32> :=
    [0x428a2f98, 0x71374491, 0xb5c0fbcf, 0xe9b5dba5, 0x3956c25b, 0x59f111f1, 0x923f82a4, 0xab1c5ed5]
  const K1: seq<bv32> :=
    [0xd807aa98, 0x12835b01, 0x243185be, 0x550c7dc3, 0x72be5d74, 0x80deb1fe, 0x9bdc06a7, 0xc19bf174]
  const K2: seq<bv32> :=
    [0xe49b69c1, 0xefbe4786, 0x0fc19dc6, 0x240ca1cc, 0x2de92c6f, 0x4a7484aa, 0x5cb0a9dc, 0x76f988da]
  const K3: seq<bv32> :=
    [0x983e5152, 0xa831c66d, 0xb00327c8, 0xbf597fc7, 0xc6e00bf3, 0xd5a79147, 0x06ca6351, 0x14292967]
  const K4: seq<bv32> :=
    [0x27b70a85, 0x2e1b2138, 0x4d2c6dfc, 0x53380d13, 0x650a7354, 0x766a0abb, 0x81c2c92e, 0x92722c85]
  const K5: seq<bv32> :=
    [0xa2bfe8a1, 0xa81a664b, 0xc24b8b70, 0xc76c51a3, 0xd192e819, 0xd6990624, 0xf40e3585, 0x106aa070]
  const K6: seq<bv32> :=
    [0x19a4c116, 0x1e376c08, 0x2748774c, 0x34b0bcb5, 0x391c0cb3, 0x4ed8aa4a, 0x5b9cca4f, 0x682e6ff3]
  const K7: seq<bv32> :=
    [0x748f82ee, 0x78a5636f, 0x84c87814, 0x8cc70208, 0x90befffa, 0xa4506ceb, 0xbef9a3f7, 0xc67178f2]
  const ROUND_CONSTANTS: seq<bv32> := K0 + K1 + K2 + K3 + K4 + K5 + K6 + K7

  const INITIAL_STATE: seq<bv32> := [
    0x6a09e667, 0xbb67ae85, 0x3c6ef372, 0xa54ff53a, 0x510e527f, 0x9b05688c, 0x1f83d9ab, 0x5be0cd19]

  type State = s: seq<bv32> | |s| == 8 witness [0, 0, 0, 0, 0, 0, 0, 0]
  type Block = b: Bytes | |b| == 64 witness seq(64, _ => 0)

  function RotateRight(x: bv32, count: bv32): bv32
    requires 0 < count < 32
  {
    (x >> count) | (x << (32 - count))
  }

  function BlockWord(b: Block, i: nat): bv32
    requires i < 16
  {
    (b[4 * i] as bv32 << 24) | (b[4 * i + 1] as bv32 << 16) | (b[4 * i + 2] as bv32 << 8) | b[4 * i + 3] as bv32
  }

  function Expand(w: seq<bv32>, i: nat): bv32
    requires 16 <= i <= |w|
  {
    var s0 := RotateRight(w[i - 15], 7) ^ RotateRight(w[i - 15], 18) ^ (w[i - 15] >> 3);
    var s1 := RotateRight(w[i - 2], 17) ^ RotateRight(w[i - 2], 19) ^ (w[i - 2] >> 10);
    w[i - 16] + s0 + w[i - 7] + s1
  }

  /** The first n words of the message schedule. */
  function Schedule(b: Block, n: nat): (w: seq<bv32>)
    requires n <= 64
    ensures |w| == n
    decreases n, b
  {
    if n == 0 then []
    else
      var w := Schedule(b, n - 1);
      w + [if n <= 16 then BlockWord(b, n - 1) else Expand(w, n - 1)]
  }

  datatype Vars = Vars(a: bv32, b: bv32, c: bv32, d: bv32, e: bv32, f: bv32, g: bv32, h: bv32)

  function Round(v: Vars, k: bv32, w: bv32): Vars
  {
    var s1 := RotateRight(v.e, 6) ^ RotateRight(v.e, 11) ^ RotateRight(v.e, 25);
    var choose := (v.e & v.f) ^ (!v.e & v.g);
    var temp1 := v.h + s1 + choose + k + w;
    var s0 := RotateRight(v.a, 2) ^ RotateRight(v.a, 13) ^ RotateRight(v.a, 22);
    var majority := (v.a & v.b) ^ (v.a & v.c) ^ (v.b & v.c);
    Vars(temp1 + (s0 + majority), v.a, v.b, v.c, v.d + temp1, v.e, v.f, v.g)
  }

  function Rounds(v: Vars, w: seq<bv32>, n: nat): Vars
    requires n <= 64 && |w| == 64
    decreases n, w
  {
    if n == 0 then v
    else Round(Rounds(v, w, n - 1), ROUND_CONSTANTS[n - 1], w[n - 1])
  }

  function ToVars(s: State): Vars
  {
    Vars(s[0], s[1], s[2], s[3], s[4], s[5], s[6], s[7])
  }

  function AddVars(s: State, v: Vars): State
  {
    [s[0] + v.a, s[1] + v.b, s[2] + v.c, s[3] + v.d, s[4] + v.e, s[5] + v.f, s[6] + v.g, s[7] + v.h]
  }

  function Compression(s: State, b: Block): State
  {
    AddVars(s, Rounds(ToVars(s), Schedule(b, 64), 64))
  }

  /** Folds the compression function over the whole blocks of m. */
  function Absorb(m: Bytes): State
    requires |m| % 64 == 0
  {
    if |m| == 0 then INITIAL_STATE
    else Compression(Absorb(m[..|m| - 64]), m[|m| - 64..])
  }

  function Zeros(n: nat): (r: Bytes)
    ensures |r| == n
  {
    seq(n, _ => 0)
  }

  /** The n low bytes of x, most significant first. */
  function BigEndian(x: nat, n: nat): (r: Bytes)
    ensures |r| == n
    decreases n, x
  {
    if n == 0 then [] else BigEndian(x / 256, n - 1) + [x % 256]
  }

  /** The fewest zero bytes that leave room for exactly the length field in the last block. */
  function ZeroCount(n: nat): (k: nat)
    ensures (n + 1 + k) % 64 == 56 && (n + 1 + k + 8) % 64 == 0 && k < 64
  {
    if n % 64 < 56 then 55 - n % 64 else 119 - n % 64
  }

  /** The length field: the bit length of an n byte message, in the 64 bits that hold it. */
  function LengthField(n: nat): (r: Bytes)
    ensures |r| == 8
  {
    BigEndian(8 * n % TWO_64, 8)
  }

  function Trailer(n: nat): (r: Bytes)
    ensures (n + |r|) % 64 == 0
  {
    [0x80] + Zeros(ZeroCount(n)) + LengthField(n)
  }

  /** Section 5.1.1 of FIPS 180-4, for messages of whole bytes. */
  function Pad(m: Bytes): (r: Bytes)
    ensures |r| % 64 == 0
  {
    m + Trailer(|m|)
  }

  lemma BitLengthWraps(n: nat)
    ensures n % TWO_64 * 8 % TWO_64 == 8 * n % TWO_64
  {
    var q, r := n / TWO_64, n % TWO_64;
    assert 8 * n == 8 * q * TWO_64 + 8 * r;
    ModAddsMultiple(8 * r, 8 * q);
  }

  lemma ModAddsMultiple(x: nat, q: nat)
    ensures (q * TWO_64 + x) % TWO_64 == x % TWO_64
  {
    var k := x / TWO_64;
    assert q * TWO_64 + x == (q + k) * TWO_64 + x % TWO_64;
  }

  function WordBytes(x: bv32): (r: Bytes)
    ensures |r| == 4
  {
    [ByteOf(x >> 24), ByteOf(x >> 16), ByteOf(x >> 8), ByteOf(x)]
  }

  function ByteOf(x: bv32): U8
  {
    ((x & 0xFF) as bv8) as int
  }

  function Digest(s: State): (r: Bytes)
    ensures |r| == 32
  {
    WordBytes(s[0]) + WordBytes(s[1]) + WordBytes(s[2]) + WordBytes(s[3]) +
    WordBytes(s[4]) + WordBytes(s[5]) + WordBytes(s[6]) + WordBytes(s[7])
  }

  function Hash(m: Bytes): (r: Bytes)
    ensures |r| == 32
  {
    Digest(Absorb(Pad(m)))
  }

  lemma AbsorbBlock(m: Bytes, b: Block)
    requires |m| % 64 == 0
    ensures |m + b| % 64 == 0 && Absorb(m + b) == Compression(Absorb(m), b)
  {
    assert (m + b)[..|m + b| - 64] == m;
    assert (m + b)[|m + b| - 64..] == b;
  }

  method MakeSchedule(block: Block) returns (w: seq<bv32>)
    ensures w == Schedule(block, 64)
  {
    hide Expand, BlockWord;
    var schedule := new bv32[64](_ => 0);
    var i := 0;
    while i < 16
      invariant 0 <= i <= 16
      invariant schedule[..i] == Schedule(block, i)
    {
      schedule[i] := BlockWord(block, i);
      assert schedule[..i + 1] == schedule[..i] + [schedule[i]];
      i := i + 1;
    }
    while i < 64
      invariant 16 <= i <= 64
      invariant schedule[..i] == Schedule(block, i)
    {
      schedule[i] := Expand(schedule[..i], i);
      assert schedule[..i + 1] == schedule[..i] + [schedule[i]];
      i := i + 1;
    }
    w := schedule[..];
    assert w == schedule[..64];
  }

  // ---- The streaming hasher ----

  class Hasher {
    const state: array<bv32>
    const buffer: array<U8>
    var totalBytes: U64
    var bufferUsed: nat
    var finalized: bool
    ghost var message: Bytes

    ghost predicate Shaped()
    {
      state.Length == 8 && buffer.Length == 64
    }

    /** The buffer holds the last bufferUsed bytes of m and the state has absorbed the rest. */
    ghost predicate Holds(m: Bytes)
      requires Shaped()
      reads this`bufferUsed, state, buffer
    {
      && bufferUsed <= 64 && bufferUsed <= |m|
      && (|m| - bufferUsed) % 64 == 0
      && buffer[..bufferUsed] == m[|m| - bufferUsed..]
      && state[..] == Absorb(m[..|m| - bufferUsed])
    }

    ghost predicate Valid()
      reads this, state, buffer
    {
      && Shaped()
      && bufferUsed < 64
      && (!finalized ==> Holds(message) && totalBytes == |message| % TWO_64)
      && (finalized ==> state[..] == Absorb(Pad(message)))
    }

    constructor ()
      ensures Valid() && fresh(state) && fresh(buffer)
      ensures message == [] && !finalized
    {
      state := new bv32[8](i requires 0 <= i < 8 => INITIAL_STATE[i]);
      buffer := new U8[64](_ => 0);
      totalBytes := 0;
      bufferUsed := 0;
      finalized := false;
      message := [];
      new;
      assert state[..] == INITIAL_STATE;
    }

    method Compress(block: Block)
      requires Shaped()
      modifies state
      ensures state[..] == Compression(old(state[..]), block)
    {
      hide Schedule, Round;
      var w := MakeSchedule(block);
      var start := ToVars(state[..]);
      var v := start;
      var i := 0;
      while i < 64
        invariant 0 <= i <= 64
        invariant v == Rounds(start, w, i)
      {
        v := Round(v, ROUND_CONSTANTS[i], w[i]);
        i := i + 1;
      }
      AddInto(v);
    }

    method AddInto(v: Vars)
      requires Shaped()
      modifies state
      ensures state[..] == AddVars(old(state[..]), v)
    {
      var sum := AddVars(state[..], v);
      var i := 0;
      while i < 8
        invariant 0 <= i <= 8
        invariant state[..i] == sum[..i]
      {
        state[i] := sum[i];
        i := i + 1;
      }
      assert state[..] == state[..8] && sum == sum[..8];
    }

    /** Copies data[from..from + count] into the buffer at offset at. */
    method CopyIn(data: Bytes, from: nat, at: nat, count: nat)
      requires Shaped() && from + count <= |data| && at + count <= 64
      modifies buffer
      ensures buffer[..at] == old(buffer[..at])
      ensures buffer[at..at + count] == data[from..from + count]
    {
      var i := 0;
      while i < count
        invariant 0 <= i <= count
        invariant buffer[..at] == old(buffer[..at])
        invariant buffer[at..at + i] == data[from..from + i]
      {
        buffer[at + i] := data[from + i];
        i := i + 1;
      }
    }

    /** Compresses a full buffer. */
    method FlushBuffer(ghost m: Bytes)
      requires Shaped() && Holds(m) && bufferUsed == 64
      modifies this`bufferUsed, state
      ensures Holds(m) && bufferUsed == 0
      ensures |m| % 64 == 0 && state[..] == Absorb(m)
    {
      hide Compression;
      assert buffer[..] == buffer[..64] == m[|m| - 64..];
      AbsorbBlock(m[..|m| - 64], buffer[..]);
      assert m == m[..|m| - 64] + buffer[..];
      Compress(buffer[..]);
      bufferUsed := 0;
      assert m[..|m| - 0] == m;
    }

    /** Tops up a partly filled buffer from the front of data. */
    method TopUp(data: Bytes) returns (taken: nat)
      requires Shaped() && Holds(message) && bufferUsed < 64
      modifies this`bufferUsed, state, buffer
      ensures taken <= |data| && Holds(message + data[..taken])
      ensures bufferUsed < 64 && (bufferUsed != 0 ==> taken == |data|)
    {
      hide Compression;
      taken := 0;
      assert message + data[..0] == message;
      if bufferUsed != 0 {
        var want := 64 - bufferUsed;
        taken := if |data| < want then |data| else want;
        CopyIn(data, 0, bufferUsed, taken);
        ghost var m := message + data[..taken];
        assert buffer[..bufferUsed + taken] == buffer[..bufferUsed] + buffer[bufferUsed..bufferUsed + taken];
        assert m[|m| - (bufferUsed + taken)..] == message[|message| - bufferUsed..] + data[..taken];
        assert m[..|m| - (bufferUsed + taken)] == message[..|message| - bufferUsed];
        bufferUsed := bufferUsed + taken;
        if bufferUsed == 64 {
          FlushBuffer(m);
        }
      }
    }

    /** Compresses the whole blocks of data from cursor on, straight from the input. */
    method CompressBlocks(data: Bytes, start: nat) returns (cursor: nat)
      requires Shaped() && start <= |data| && bufferUsed == 0 && Holds(message + data[..start])
      modifies state
      ensures start <= cursor <= |data| && |data| - cursor < 64
      ensures Holds(message + data[..cursor])
    {
      hide Compression, Absorb;
      cursor := start;
      while |data| - cursor >= 64
        invariant start <= cursor <= |data|
        invariant Holds(message + data[..cursor])
      {
        ghost var m := message + data[..cursor];
        assert m[..|m| - 0] == m;
        var block := data[cursor..cursor + 64];
        AbsorbBlock(m, block);
        Compress(block);
        cursor := cursor + 64;
        assert message + data[..cursor] == m + block;
        assert (m + block)[..|m + block| - 0] == m + block;
      }
    }

    method Update(data: Bytes)
      requires Valid()
      modifies this, state, buffer
      ensures Valid() && finalized == old(finalized)
      ensures message == if old(finalized) then old(message) else old(message) + data
    {
      hide Absorb, Pad, Holds;
      if finalized || |data| == 0 {
        assert |data| == 0 ==> message + data == message;
        return;
      }
      totalBytes := (totalBytes + |data|) % TWO_64;
      var cursor := TopUp(data);
      if bufferUsed == 0 {
        cursor := CompressBlocks(data, cursor);
        KeepTail(data, cursor);
      } else {
        assert data[..cursor] == data;
      }
      message := message + data;
    }

    /** Buffers what is left of data, less than a block. */
    method KeepTail(data: Bytes, cursor: nat)
      requires Shaped() && cursor <= |data| && |data| - cursor < 64
      requires bufferUsed == 0 && Holds(message + data[..cursor])
      modifies this`bufferUsed, buffer
      ensures Holds(message + data) && bufferUsed < 64
    {
      hide Compression, Absorb;
      var remaining := |data| - cursor;
      if remaining != 0 {
        CopyIn(data, cursor, 0, remaining);
        bufferUsed := remaining;
      }
      ghost var m, whole := message + data[..cursor], message + data;
      assert whole[..|whole| - remaining] == m == m[..|m| - 0];
      assert whole[|whole| - remaining..] == data[cursor..cursor + remaining];
      assert buffer[0..0 + remaining] == buffer[..remaining];
    }

    /** Writes count zero bytes at the end of the used part of the buffer. */
    method FillZeros(count: nat, ghost m: Bytes)
      requires Shaped() && Holds(m) && bufferUsed + count <= 64
      modifies this`bufferUsed, buffer
      ensures Holds(m + Zeros(count)) && bufferUsed == old(bufferUsed) + count
    {
      hide Compression;
      var i := 0;
      assert m + Zeros(0) == m;
      while i < count
        invariant 0 <= i <= count
        invariant bufferUsed == old(bufferUsed) + i
        invariant Holds(m + Zeros(i))
      {
        ghost var before := m + Zeros(i);
        buffer[bufferUsed] := 0;
        bufferUsed := bufferUsed + 1;
        assert m + Zeros(i + 1) == before + [0];
        HoldsAppend(before, 0);
        i := i + 1;
      }
    }

    /** One more byte in the buffer is one more byte of message held. */
    lemma HoldsAppend(m: Bytes, x: U8)
      requires Shaped() && 1 <= bufferUsed <= 64 && bufferUsed - 1 <= |m|
      requires (|m| - (bufferUsed - 1)) % 64 == 0
      requires buffer[..bufferUsed - 1] == m[|m| - (bufferUsed - 1)..]
      requires state[..] == Absorb(m[..|m| - (bufferUsed - 1)])
      requires buffer[bufferUsed - 1] == x
      ensures Holds(m + [x])
    {
      hide Compression;
      var n := m + [x];
      assert buffer[..bufferUsed] == buffer[..bufferUsed - 1] + [x];
      assert n[|n| - bufferUsed..] == m[|m| - (bufferUsed - 1)..] + [x];
      assert n[..|n| - bufferUsed] == m[..|m| - (bufferUsed - 1)];
    }

    /** Zero bytes up to the length field, through an extra block when it no longer fits in this one. */
    method ZerosToLength(ghost m: Bytes)
      requires Shaped() && Holds(m) && 1 <= bufferUsed <= 64
      requires (|m| - bufferUsed) % 64 == 0
      modifies this`bufferUsed, state, buffer
      ensures bufferUsed == 56
      ensures Holds(m + Zeros(ZeroCount(|m| - 1)))
    {
      hide Compression, Absorb, Holds;
      ghost var first := 0;
      if bufferUsed > 56 {
        first := 64 - bufferUsed;
        FillZeros(64 - bufferUsed, m);
        FlushBuffer(m + Zeros(first));
      } else {
        assert m + Zeros(0) == m;
      }
      ghost var second := 56 - bufferUsed;
      FillZeros(56 - bufferUsed, m + Zeros(first));
      assert m + Zeros(first) + Zeros(second) == m + Zeros(first + second);
    }

    /** Appends the terminator bit, as the byte 0x80. */
    method Terminate()
      requires Shaped() && Holds(message) && bufferUsed < 64
      modifies this`bufferUsed, buffer
      ensures Holds(message + [0x80]) && bufferUsed == old(bufferUsed) + 1
      ensures (|message| + 1 - bufferUsed) % 64 == 0
    {
      hide Compression;
      buffer[bufferUsed] := 0x80;
      bufferUsed := bufferUsed + 1;
      HoldsAppend(message, 0x80);
    }

    /** Pads the held message to whole blocks and absorbs it. */
    method PadAndAbsorb(bitLength: U64)
      requires Shaped() && Holds(message) && bufferUsed < 64
      requires BigEndian(bitLength, 8) == LengthField(|message|)
      modifies this`bufferUsed, state, buffer
      ensures state[..] == Absorb(Pad(message)) && bufferUsed == 0
    {
      hide Absorb, Holds, ZeroCount, LengthField;
      Terminate();
      ghost var zeros := Zeros(ZeroCount(|message|));
      ZerosToLength(message + [0x80]);
      var length := BigEndian(bitLength, 8);
      WriteLength(length, message + [0x80] + zeros);
      FlushBuffer(message + [0x80] + zeros + length);
      assert message + [0x80] + zeros + length == Pad(message);
    }

    method Finish() returns (digest: Bytes)
      requires Valid()
      modifies this, state, buffer
      ensures Valid() && finalized && message == old(message)
      ensures digest == Hash(message)
    {
      hide Absorb, Pad, Digest, Holds, BigEndian;
      if !finalized {
        var bitLength: U64 := totalBytes * 8 % TWO_64;
        BitLengthWraps(|message|);
        PadAndAbsorb(bitLength);
        finalized := true;
      }
      digest := Digest(state[..]);
    }

    method WriteLength(length: Bytes, ghost m: Bytes)
      requires Shaped() && Holds(m) && bufferUsed == 56 && |length| == 8
      modifies this`bufferUsed, buffer
      ensures Holds(m + length) && bufferUsed == 64
    {
      hide Absorb;
      CopyIn(length, 0, 56, 8);
      bufferUsed := 64;
      ghost var n := m + length;
      assert buffer[..64] == buffer[..56] + buffer[56..64];
      assert n[|n| - 64..] == m[|m| - 56..] + length;
      assert n[..|n| - 64] == m[..|m| - 56];
    }
  }

  /** However a message is cut into updates, the digest is the hash of the whole message. */
  method Compute(chunks: seq<Bytes>) returns (digest: Bytes)
    ensures digest == Hash(Joined(chunks))
  {
    hide Hash, Pad, Absorb, Hasher.Holds;
    var hasher := new Hasher();
    var i := 0;
    while i < |chunks|
      invariant 0 <= i <= |chunks|
      invariant fresh(hasher) && fresh(hasher.state) && fresh(hasher.buffer)
      invariant hasher.Valid() && !hasher.finalized
      invariant hasher.message == Joined(chunks[..i])
    {
      hasher.Update(chunks[i]);
      JoinedStep(chunks, i);
      i := i + 1;
    }
    assert chunks[..i] == chunks;
    digest := hasher.Finish();
  }

  lemma JoinedStep(chunks: seq<Bytes>, i: nat)
    requires i < |chunks|
    ensures Joined(chunks[..i + 1]) == Joined(chunks[..i]) + chunks[i]
  {
    assert chunks[..i + 1][..i] == chunks[..i];
  }

  function Joined(chunks: seq<Bytes>): (r: Bytes)
  {
    if chunks == [] then [] else Joined(chunks[..|chunks| - 1]) + chunks[|chunks| - 1]
  }

  /** Below 2^61 bytes the length field is the message length in bits, as FIPS 180-4 requires. */
  lemma LengthFieldExact(n: nat)
    requires n < 0x2000_0000_0000_0000
    ensures LengthField(n) == BigEndian(8 * n, 8)
  {
    assert 0 <= 8 * n < TWO_64;
  }
}
