// SHA-256 against its published answer: the digest of "abc".

module KnownAnswers {
  import opened Words
  import opened Sha256

  // ---- SHA-256 of "abc" (appendix B.1 of FIPS 180-2) ----

  const ABC: Bytes := [0x61, 0x62, 0x63]

  // The message schedule of the one block of "abc", eight words to a row.
  const W0: seq<bv32> :=
    [0x61626380, 0x00000000, 0x00000000, 0x00000000, 0x00000000, 0x00000000, 0x00000000, 0x00000000]
  const W1: seq<bv32> :=
    [0x00000000, 0x00000000, 0x00000000, 0x00000000, 0x00000000, 0x00000000, 0x00000000, 0x00000018]
  const W2: seq<bv32> :=
    [0x61626380, 0x000f0000, 0x7da86405, 0x600003c6, 0x3e9d7b78, 0x0183fc00, 0x12dcbfdb, 0xe2e2c38e]
  const W3: seq<bv32> :=
    [0xc8215c1a, 0xb73679a2, 0xe5bc3909, 0x32663c5b, 0x9d209d67, 0xec8726cb, 0x702138a4, 0xd3b7973b]
  const W4: seq<bv32> :=
    [0x93f5997f, 0x3b68ba73, 0xaff4ffc1, 0xf10a5c62, 0x0a8b3996, 0x72af830a, 0x9409e33e, 0x24641522]
  const W5: seq<bv32> :=
    [0x9f47bf94, 0xf0a64f5a, 0x3e246a79, 0x27333ba3, 0x0c4763f2, 0x840abf27, 0x7a290d5d, 0x065c43da]
  const W6: seq<bv32> :=
    [0xfb3e89cb, 0xcc7617db, 0xb9e66c34, 0xa9993667, 0x84badedd, 0xc21462bc, 0x1487472c, 0xb20f7a99]
  const W7: seq<bv32> :=
    [0xef57b9cd, 0xebe6b238, 0x9fe3095e, 0x78bc8d4b, 0xa43fcf15, 0x668b2ff8, 0xeeaba2cc, 0x12b1edeb]

  // The working variables after every eighth round.
  const V0 := Vars(0x6a09e667, 0xbb67ae85, 0x3c6ef372, 0xa54ff53a, 0x510e527f, 0x9b05688c, 0x1f83d9ab, 0x5be0cd19)
  const V1 := Vars(0x85a07b5f, 0xe5030380, 0x2b4209f5, 0x04409a6a, 0x0c657a79, 0x9b27a401, 0x714260ad, 0x43ada245)
  const V2 := Vars(0xb0fa238e, 0xc0645fde, 0xd932eb16, 0x87912990, 0x07590dcd, 0x0b92f20c, 0x745a48de, 0x1e578218)
  const V3 := Vars(0xc5d53d8d, 0xa7a3623f, 0xc2606d6d, 0x9dc68b63, 0xaa47c347, 0x49f5114a, 0xe1257970, 0x8ada8930)
  const V4 := Vars(0x73b33bf5, 0xea992a22, 0xa0060b30, 0x363482c9, 0xba591112, 0x0109ab3a, 0xade79437, 0x6112a3b7)
  const V5 := Vars(0x79ea687a, 0x6dc57a8a, 0x34df1604, 0x41a65cb1, 0x1efbc0a0, 0xf0781bc8, 0xa507a53d, 0x0772a26b)
  const V6 := Vars(0x4172328d, 0xa14c14b0, 0x72ab4b91, 0x26628815, 0xfecf0bc6, 0xd57b94a9, 0xb7755da1, 0xa80f11f0)
  const V7 := Vars(0x38cc9913, 0x3ec45cdb, 0xf5702fdb, 0x101fd28f, 0x54cb266b, 0xe50e1b4f, 0x9f4787c3, 0x529e7d00)
  const V8 := Vars(0x506e3058, 0xd39a2165, 0x04d24d6c, 0xb85e2ce9, 0x5ef50f24, 0xfb121210, 0x948d25b6, 0x961f4894)

  /** Two rounds, and eight, from words and constants given outright. */
  function Two(v: Vars, k: seq<bv32>, w: seq<bv32>, i: nat): Vars
    requires |k| == |w| == 8 && i < 7
  {
    Round(Round(v, k[i], w[i]), k[i + 1], w[i + 1])
  }

  function Eight(v: Vars, k: seq<bv32>, w: seq<bv32>): Vars
    requires |k| == |w| == 8
  {
    Two(Two(Two(Two(v, k, w, 0), k, w, 2), k, w, 4), k, w, 6)
  }

  lemma TwoRounds(v: Vars, w: seq<bv32>, n: nat, k: seq<bv32>, u: seq<bv32>, i: nat)
    requires n + 8 <= 64 && |w| == 64 && k == ROUND_CONSTANTS[n..n + 8] && u == w[n..n + 8] && i < 7
    ensures Rounds(v, w, n + i + 2) == Two(Rounds(v, w, n + i), k, u, i)
  {
    hide Round;
    assert k[i] == ROUND_CONSTANTS[n + i] && k[i + 1] == ROUND_CONSTANTS[n + i + 1];
    assert u[i] == w[n + i] && u[i + 1] == w[n + i + 1];
    assert Rounds(v, w, n + i + 1) == Round(Rounds(v, w, n + i), k[i], u[i]);
  }

  lemma EightRounds(v: Vars, w: seq<bv32>, n: nat, k: seq<bv32>, u: seq<bv32>)
    requires n + 8 <= 64 && |w| == 64 && k == ROUND_CONSTANTS[n..n + 8] && u == w[n..n + 8]
    ensures Rounds(v, w, n + 8) == Eight(Rounds(v, w, n), k, u)
  {
    hide Rounds, Two;
    TwoRounds(v, w, n, k, u, 0);
    TwoRounds(v, w, n, k, u, 2);
    TwoRounds(v, w, n, k, u, 4);
    TwoRounds(v, w, n, k, u, 6);
  }

  lemma Row0()
    ensures Eight(V0, K0, W0) == V1
  {
  }

  lemma Row1()
    ensures Eight(V1, K1, W1) == V2
  {
  }

  lemma Row2()
    ensures Eight(V2, K2, W2) == V3
  {
  }

  lemma Row3()
    ensures Eight(V3, K3, W3) == V4
  {
  }

  lemma Row4()
    ensures Eight(V4, K4, W4) == V5
  {
  }

  lemma Row5()
    ensures Eight(V5, K5, W5) == V6
  {
  }

  lemma Row6()
    ensures Eight(V6, K6, W6) == V7
  {
  }

  lemma Row7()
    ensures Eight(V7, K7, W7) == V8
  {
  }

  lemma ConstantRows()
    ensures ROUND_CONSTANTS[0..8] == K0 && ROUND_CONSTANTS[8..16] == K1 && ROUND_CONSTANTS[16..24] == K2
    ensures ROUND_CONSTANTS[24..32] == K3 && ROUND_CONSTANTS[32..40] == K4 && ROUND_CONSTANTS[40..48] == K5
    ensures ROUND_CONSTANTS[48..56] == K6 && ROUND_CONSTANTS[56..64] == K7
  {
    RowsApart(K0, K1, K2, K3, K4, K5, K6, K7);
  }

  lemma RowsApart(a: seq<bv32>, b: seq<bv32>, c: seq<bv32>, d: seq<bv32>, e: seq<bv32>, f: seq<bv32>, g: seq<bv32>,
                  h: seq<bv32>)
    requires |a| == |b| == |c| == |d| == |e| == |f| == |g| == |h| == 8
    ensures var all := a + b + c + d + e + f + g + h;
            && |all| == 64 && all[0..8] == a && all[8..16] == b && all[16..24] == c && all[24..32] == d
            && all[32..40] == e && all[40..48] == f && all[48..56] == g && all[56..64] == h
  {
    var all := a + b + c + d + e + f + g + h;
    assert all[0..8] == a && all[8..16] == b && all[16..24] == c && all[24..32] == d;
    assert all[32..40] == e && all[40..48] == f && all[48..56] == g && all[56..64] == h;
  }

  const ABC_WORDS: seq<bv32> := W0 + W1 + W2 + W3 + W4 + W5 + W6 + W7

  lemma AbcRounds()
    ensures Rounds(V0, ABC_WORDS, 64) == V8
  {
    hide Rounds, Eight;
    ConstantRows();
    RowsApart(W0, W1, W2, W3, W4, W5, W6, W7);
    EightRounds(V0, ABC_WORDS, 0, K0, W0);
    Row0();
    EightRounds(V0, ABC_WORDS, 8, K1, W1);
    Row1();
    EightRounds(V0, ABC_WORDS, 16, K2, W2);
    Row2();
    EightRounds(V0, ABC_WORDS, 24, K3, W3);
    Row3();
    EightRounds(V0, ABC_WORDS, 32, K4, W4);
    Row4();
    EightRounds(V0, ABC_WORDS, 40, K5, W5);
    Row5();
    EightRounds(V0, ABC_WORDS, 48, K6, W6);
    Row6();
    EightRounds(V0, ABC_WORDS, 56, K7, W7);
    Row7();
    assert Rounds(V0, ABC_WORDS, 0) == V0 by { NoRounds(V0, ABC_WORDS); }
  }

  lemma NoRounds(v: Vars, w: seq<bv32>)
    requires |w| == 64
    ensures Rounds(v, w, 0) == v
  {
  }

  // ---- The schedule ----

  /** One word of the schedule, from the four it is made of. */
  function Mix(a: bv32, b: bv32, c: bv32, d: bv32): bv32
  {
    var s0 := RotateRight(b, 7) ^ RotateRight(b, 18) ^ (b >> 3);
    var s1 := RotateRight(d, 17) ^ RotateRight(d, 19) ^ (d >> 10);
    a + s0 + c + s1
  }

  /** Row c of the schedule follows from the two rows before it. */
  predicate Follows(a: seq<bv32>, b: seq<bv32>, c: seq<bv32>)
    requires |a| == |b| == |c| == 8
  {
    && c[0] == Mix(a[0], a[1], b[1], b[6]) && c[1] == Mix(a[1], a[2], b[2], b[7])
    && c[2] == Mix(a[2], a[3], b[3], c[0]) && c[3] == Mix(a[3], a[4], b[4], c[1])
    && c[4] == Mix(a[4], a[5], b[5], c[2]) && c[5] == Mix(a[5], a[6], b[6], c[3])
    && c[6] == Mix(a[6], a[7], b[7], c[4]) && c[7] == Mix(a[7], b[0], c[0], c[5])
  }

  lemma Schedule2()
    ensures Follows(W0, W1, W2)
  {
  }

  lemma Schedule3()
    ensures Follows(W1, W2, W3)
  {
  }

  lemma Schedule4()
    ensures Follows(W2, W3, W4)
  {
  }

  lemma Schedule5()
    ensures Follows(W3, W4, W5)
  {
  }

  lemma Schedule6()
    ensures Follows(W4, W5, W6)
  {
  }

  lemma Schedule7()
    ensures Follows(W5, W6, W7)
  {
  }

  /** The word is made as the schedule makes it. */
  predicate Expanded(w: seq<bv32>, i: nat)
    requires 16 <= i < |w|
  {
    w[i] == Expand(w, i)
  }

  lemma ExpandMixes(w: seq<bv32>, i: nat)
    requires 16 <= i <= |w|
    ensures Expand(w, i) == Mix(w[i - 16], w[i - 15], w[i - 7], w[i - 2])
  {
  }

  lemma RowMixes(a: seq<bv32>, b: seq<bv32>, c: seq<bv32>, j: nat)
    requires |a| == |b| == |c| == 8 && j < 8 && Follows(a, b, c)
    ensures c[j] == Mix(a[j], if j < 7 then a[j + 1] else b[0], if j < 7 then b[j + 1] else c[0],
                        if j < 2 then b[j + 6] else c[j - 2])
  {
    hide Mix;
  }

  lemma RowExpanded(w: seq<bv32>, n: nat, a: seq<bv32>, b: seq<bv32>, c: seq<bv32>, j: nat)
    requires |w| == 64 && n + 24 <= 64 && |a| == |b| == |c| == 8 && j < 8
    requires a == w[n..n + 8] && b == w[n + 8..n + 16] && c == w[n + 16..n + 24] && Follows(a, b, c)
    ensures Expanded(w, n + 16 + j)
  {
    hide Expand, Mix, Follows;
    var i := n + 16 + j;
    ExpandMixes(w, i);
    RowMixes(a, b, c, j);
    assert w[i] == c[j] && w[i - 16] == a[j];
    assert w[i - 15] == if j < 7 then a[j + 1] else b[0];
    assert w[i - 7] == if j < 7 then b[j + 1] else c[0];
    assert w[i - 2] == if j < 2 then b[j + 6] else c[j - 2];
  }

  lemma {:induction false} ScheduleIs(b: Block, w: seq<bv32>, n: nat)
    requires |w| == 64 && n <= 64
    requires forall i :: 0 <= i < 16 ==> w[i] == BlockWord(b, i)
    requires forall i :: 16 <= i < 64 ==> Expanded(w, i)
    ensures Schedule(b, n) == w[..n]
  {
    hide BlockWord, RotateRight;
    if n > 0 {
      ScheduleIs(b, w, n - 1);
      assert w[..n] == w[..n - 1] + [w[n - 1]];
      if n > 16 {
        assert Expanded(w, n - 1);
        SameExpansion(w[..n - 1], w, n - 1);
      }
    }
  }

  lemma SameExpansion(u: seq<bv32>, w: seq<bv32>, i: nat)
    requires 16 <= i <= |u| && i <= |w| && u[..i] == w[..i]
    ensures Expand(u, i) == Expand(w, i)
  {
    hide Expand, Mix;
    ExpandMixes(u, i);
    ExpandMixes(w, i);
    assert u[i - 16] == u[..i][i - 16] && u[i - 15] == u[..i][i - 15] && u[i - 7] == u[..i][i - 7]
           && u[i - 2] == u[..i][i - 2];
    assert w[i - 16] == w[..i][i - 16] && w[i - 15] == w[..i][i - 15] && w[i - 7] == w[..i][i - 7]
           && w[i - 2] == w[..i][i - 2];
  }

  lemma RowsExpanded(w: seq<bv32>, a: seq<bv32>, b: seq<bv32>, c: seq<bv32>, d: seq<bv32>, e: seq<bv32>,
                     f: seq<bv32>, g: seq<bv32>, h: seq<bv32>, i: nat)
    requires |a| == |b| == |c| == |d| == |e| == |f| == |g| == |h| == 8 && 16 <= i < 64
    requires w == a + b + c + d + e + f + g + h
    requires Follows(a, b, c) && Follows(b, c, d) && Follows(c, d, e)
    requires Follows(d, e, f) && Follows(e, f, g) && Follows(f, g, h)
    ensures Expanded(w, i)
  {
    hide Expanded, Follows;
    RowsApart(a, b, c, d, e, f, g, h);
    if i < 24 {
      RowExpanded(w, 0, a, b, c, i - 16);
    } else if i < 32 {
      RowExpanded(w, 8, b, c, d, i - 24);
    } else if i < 40 {
      RowExpanded(w, 16, c, d, e, i - 32);
    } else if i < 48 {
      RowExpanded(w, 24, d, e, f, i - 40);
    } else if i < 56 {
      RowExpanded(w, 32, e, f, g, i - 48);
    } else {
      RowExpanded(w, 40, f, g, h, i - 56);
    }
  }

  lemma AbcExpanded(i: nat)
    requires 16 <= i < 64
    ensures Expanded(ABC_WORDS, i)
  {
    hide Expanded, Follows;
    Schedule2();
    Schedule3();
    Schedule4();
    Schedule5();
    Schedule6();
    Schedule7();
    RowsExpanded(ABC_WORDS, W0, W1, W2, W3, W4, W5, W6, W7, i);
  }

  // ---- The padded message ----

  /** Zero in big-endian is zeros. */
  lemma {:induction false} BigEndianZero(n: nat)
    ensures forall i :: 0 <= i < n ==> BigEndian(0, n)[i] == 0
  {
    if n > 0 { BigEndianZero(n - 1); }
  }

  lemma LastByte(x: nat, n: nat)
    requires x < 256 && n > 0
    ensures BigEndian(x, n) == BigEndian(0, n - 1) + [x]
  {
  }

  lemma AbcLength()
    ensures LengthField(3)[7] == 24 && forall i :: 0 <= i < 7 ==> LengthField(3)[i] == 0
  {
    BigEndianZero(7);
    LastByte(24, 8);
    hide BigEndian;
    assert 8 * 3 % TWO_64 == 24;
    assert LengthField(3) == BigEndian(0, 7) + [24];
  }

  lemma AbcPadded()
    ensures |Pad(ABC)| == 64 && Pad(ABC)[..4] == [0x61, 0x62, 0x63, 0x80] && Pad(ABC)[63] == 24
    ensures forall i :: 4 <= i < 63 ==> Pad(ABC)[i] == 0
  {
    hide LengthField;
    AbcLength();
    var zeros, tail := Zeros(52), LengthField(3);
    assert Pad(ABC) == ABC + ([0x80] + zeros + tail);
    hide Pad;
    forall i | 4 <= i < 63
      ensures Pad(ABC)[i] == 0
    {
      assert Pad(ABC)[i] == if i < 56 then zeros[i - 4] else tail[i - 56];
    }
  }

  lemma AbcWord(i: nat)
    requires i < 16
    ensures |Pad(ABC)| == 64 && BlockWord(Pad(ABC), i) == ABC_WORDS[i]
  {
    hide Pad;
    AbcPadded();
    var b := Pad(ABC);
    RowsApart(W0, W1, W2, W3, W4, W5, W6, W7);
    assert ABC_WORDS[i] == if i < 8 then ABC_WORDS[0..8][i] else ABC_WORDS[8..16][i - 8];
    if i == 0 {
      assert b[0] == b[..4][0] && b[1] == b[..4][1] && b[2] == b[..4][2] && b[3] == b[..4][3];
    }
  }

  /** The digest of "abc". */
  lemma ShaOfAbc()
    ensures Hash(ABC) == [
              0xba, 0x78, 0x16, 0xbf, 0x8f, 0x01, 0xcf, 0xea, 0x41, 0x41, 0x40, 0xde, 0x5d, 0xae, 0x22, 0x23,
              0xb0, 0x03, 0x61, 0xa3, 0x96, 0x17, 0x7a, 0x9c, 0xb4, 0x10, 0xff, 0x61, 0xf2, 0x00, 0x15, 0xad]
  {
    hide Rounds, BlockWord, Expanded, Schedule, Pad;
    AbcPadded();
    var b := Pad(ABC);
    RowsApart(W0, W1, W2, W3, W4, W5, W6, W7);
    forall i | 0 <= i < 16
      ensures ABC_WORDS[i] == BlockWord(b, i)
    {
      AbcWord(i);
    }
    forall i | 16 <= i < 64
      ensures Expanded(ABC_WORDS, i)
    {
      AbcExpanded(i);
    }
    ScheduleIs(b, ABC_WORDS, 64);
    assert ABC_WORDS[..64] == ABC_WORDS;
    AbcRounds();
    assert b[..0] == [] && b[0..] == b;
    assert Absorb([]) == INITIAL_STATE && Absorb(b) == Compression(INITIAL_STATE, b);
    AbcState();
  }

  lemma AbcState()
    ensures ToVars(INITIAL_STATE) == V0
    ensures Digest(AddVars(INITIAL_STATE, V8)) == [
              0xba, 0x78, 0x16, 0xbf, 0x8f, 0x01, 0xcf, 0xea, 0x41, 0x41, 0x40, 0xde, 0x5d, 0xae, 0x22, 0x23,
              0xb0, 0x03, 0x61, 0xa3, 0x96, 0x17, 0x7a, 0x9c, 0xb4, 0x10, 0xff, 0x61, 0xf2, 0x00, 0x15, 0xad]
  {
    assert AddVars(INITIAL_STATE, V8) == [
             0xba7816bf, 0x8f01cfea, 0x414140de, 0x5dae2223, 0xb00361a3, 0x96177a9c, 0xb410ff61, 0xf20015ad];
  }
}
