// The append-only store as bytes: what Append writes, what the scan of Open accepts, and why
// the two are inverse, why any cut is safe, and why a single damaged byte stops the scan.

module Log {
  import opened Words
  import opened LittleEndian
  import opened Crc
  import opened State

  const HEADER_BYTES := 24
  const CHAIN_BYTES := 32

  datatype StoreRecord = StoreRecord(kind: U16, payload: Bytes)

  predicate ValidKind(kind: U16) { 1 <= kind <= 4 }

  /** The digest after one more record, from the digest before, the header from its kind on, and the payload. */
  type ChainStep = (Bytes, Bytes, Bytes) -> Bytes

  ghost predicate Chains(step: ChainStep)
  {
    forall previous, head, payload :: |step(previous, head, payload)| == CHAIN_BYTES
  }

  // ---- Frames ----

  /** What Append accepts. */
  predicate Storable(r: StoreRecord, max: nat) { ValidKind(r.kind) && |r.payload| <= max && |r.payload| + 56 < TWO_32 }

  /** The record header from its kind field on. */
  function HeadFromKind(r: StoreRecord, sequence: U64): (h: Bytes)
    ensures |h| == 20
  {
    LE(r.kind, 2) + LE(0, 2) + LE(sequence, 8) + LE(|r.payload|, 4) + LE(Crc32c(r.payload), 4)
  }

  /** Everything the frame checksum covers. */
  function Covered(step: ChainStep, chain: Bytes, sequence: U64, r: StoreRecord): Bytes
  {
    LE(|r.payload| + 56, 4) + HeadFromKind(r, sequence) + r.payload + step(chain, HeadFromKind(r, sequence), r.payload)
  }

  /** Store::Append(): the frame of one record. */
  function Frame(step: ChainStep, chain: Bytes, sequence: U64, r: StoreRecord): Bytes
  {
    Covered(step, chain, sequence, r) + LE(Crc32c(Covered(step, chain, sequence, r)), 4)
  }

  function NextChain(step: ChainStep, chain: Bytes, sequence: U64, r: StoreRecord): Bytes
  {
    step(chain, HeadFromKind(r, sequence), r.payload)
  }

  lemma FrameSize(step: ChainStep, chain: Bytes, sequence: U64, r: StoreRecord)
    requires Chains(step)
    ensures |Frame(step, chain, sequence, r)| == |r.payload| + 60
  {
    hide LE, Crc32c, HeadFromKind;
  }

  // ---- The scan ----

  datatype StopReason = TruncatedTail | CorruptRecord | ChainBreak

  datatype FrameResult = Stop(reason: StopReason) | Loaded(record: StoreRecord, size: nat, chain: Bytes)

  function Load(b: Bytes, at: nat, n: nat): (r: nat)
    requires at + n <= |b|
    ensures r < Pow256(n)
  {
    Nat(b[at..at + n])
  }

  /** The checks on a complete frame, in the order the scan makes them. */
  function CheckFrame(step: ChainStep, chain: Bytes, sequence: nat, max: nat, b: Bytes, payloadBytes: nat): FrameResult
    requires payloadBytes + 60 <= |b|
  {
    Pow256Values();
    var payload := b[24..24 + payloadBytes];
    var r := StoreRecord(Load(b, 4, 2), payload);
    var next := step(chain, b[4..24], payload);
    if Load(b, payloadBytes + 56, 4) != Crc32c(b[..payloadBytes + 56]) then Stop(CorruptRecord)
    else if Crc32c(payload) != Load(b, 20, 4) then Stop(CorruptRecord)
    else if b[24 + payloadBytes..56 + payloadBytes] != next then Stop(ChainBreak)
    else Loaded(r, payloadBytes + 60, next)
  }

  /** One turn of the scan at the front of b. */
  function ScanFrame(step: ChainStep, chain: Bytes, sequence: nat, max: nat, b: Bytes): (r: FrameResult)
    ensures r.Loaded? ==> 60 <= r.size <= |b|
  {
    Pow256Values();
    if |b| < 24 then Stop(TruncatedTail)
    else
      var frameBytes, payloadBytes := Load(b, 0, 4), Load(b, 16, 4);
      if frameBytes + 4 > |b| then Stop(TruncatedTail)
      else if frameBytes < 56 then Stop(CorruptRecord)
      else if Load(b, 6, 2) != 0 then Stop(CorruptRecord)
      else if !ValidKind(Load(b, 4, 2)) then Stop(CorruptRecord)
      else if payloadBytes + 60 != frameBytes + 4 then Stop(CorruptRecord)
      else if payloadBytes > max then Stop(CorruptRecord)
      else if Load(b, 8, 8) != sequence then Stop(ChainBreak)
      else CheckFrame(step, chain, sequence, max, b, payloadBytes)
  }

  /**
    * A record that Append takes is read back from its own frame exactly when the frame's length
    * fits the 32-bit field it is cut down to.
    */
  lemma ReadBackExactly(step: ChainStep, chain: Bytes, sequence: U64, max: nat, r: StoreRecord, tail: Bytes)
    requires Chains(step) && ValidKind(r.kind) && |r.payload| <= max
    ensures var f := ScanFrame(step, chain, sequence, max, Frame(step, chain, sequence, r) + tail);
            f.Loaded? && f.record == r <==> |r.payload| + 56 < TWO_32
  {
    if |r.payload| + 56 < TWO_32 {
      hide Frame, ScanFrame, NextChain;
      ScanReads(step, chain, sequence, max, r, tail);
    } else {
      hide Frame, Crc32c;
      Pow256Values();
    }
  }

  /** The records loaded, the bytes they take, why the scan stopped short of the end, and the chain so far. */
  datatype ScanResult = ScanResult(records: seq<StoreRecord>, bytes: nat, stop: Option<StopReason>, chain: Bytes)

  function Scan(step: ChainStep, chain: Bytes, sequence: nat, max: nat, b: Bytes): (r: ScanResult)
    ensures r.bytes <= |b|
    decreases |b|
  {
    if b == [] then ScanResult([], 0, None, chain)
    else
      var f := ScanFrame(step, chain, sequence, max, b);
      if f.Stop? then ScanResult([], 0, Some(f.reason), chain)
      else
        var rest := Scan(step, f.chain, sequence + 1, max, b[f.size..]);
        ScanResult([f.record] + rest.records, f.size + rest.bytes, rest.stop, rest.chain)
  }

  // ---- Print, then parse ----

  lemma SliceLeft(x: Bytes, y: Bytes, i: nat, j: nat)
    requires i <= j <= |x|
    ensures (x + y)[i..j] == x[i..j]
  {
  }

  lemma SliceRight(x: Bytes, y: Bytes)
    ensures (x + y)[|x|..] == y && (x + y)[|x|..|x + y|] == y && (x + y)[..|x|] == x
  {
  }

  /** Where each field of a frame sits. */
  ghost predicate HasFields(step: ChainStep, chain: Bytes, sequence: U64, r: StoreRecord, b: Bytes)
  {
    var n := |r.payload|;
    && |b| >= n + 60
    && b[0..4] == LE(n + 56, 4) && b[4..24] == HeadFromKind(r, sequence)
    && b[24..24 + n] == r.payload && b[24 + n..56 + n] == NextChain(step, chain, sequence, r)
    && b[0..56 + n] == Covered(step, chain, sequence, r)
      && b[56 + n..60 + n] == LE(Crc32c(Covered(step, chain, sequence, r)), 4)
  }

  lemma CoveredFields(step: ChainStep, chain: Bytes, sequence: U64, r: StoreRecord)
    requires Chains(step)
    ensures var b := Covered(step, chain, sequence, r); var n := |r.payload|;
            && |b| == n + 56 && b[0..4] == LE(n + 56, 4) && b[4..24] == HeadFromKind(r, sequence)
            && b[24..24 + n] == r.payload && b[24 + n..56 + n] == NextChain(step, chain, sequence, r)
  {
    hide LE, Crc32c, HeadFromKind;
    var n := |r.payload|;
    var a, h, c := LE(n + 56, 4), HeadFromKind(r, sequence), NextChain(step, chain, sequence, r);
    SliceRight(a, h);
    SliceRight(a + h, r.payload);
    SliceRight(a + h + r.payload, c);
    SliceLeft(a + h, r.payload, 0, 4);
    SliceLeft(a + h, r.payload, 4, 24);
    SliceLeft(a + h + r.payload, c, 0, 4);
    SliceLeft(a + h + r.payload, c, 4, 24);
    SliceLeft(a + h + r.payload, c, 24, 24 + n);
  }

  lemma FrameFields(step: ChainStep, chain: Bytes, sequence: U64, r: StoreRecord, tail: Bytes)
    requires Chains(step)
    ensures HasFields(step, chain, sequence, r, Frame(step, chain, sequence, r) + tail)
    ensures (Frame(step, chain, sequence, r) + tail)[|r.payload| + 60..] == tail
  {
    hide LE, Crc32c, HeadFromKind, Covered;
    var n := |r.payload|;
    var covered, k := Covered(step, chain, sequence, r), LE(Crc32c(Covered(step, chain, sequence, r)), 4);
    var f := Frame(step, chain, sequence, r);
    CoveredFields(step, chain, sequence, r);
    SliceRight(covered, k);
    SliceRight(f, tail);
    FieldsWithin(covered, k + tail, n);
    assert f + tail == covered + (k + tail);
    assert (k + tail)[..4] == k;
  }

  /** Slices of the front part are slices of the whole. */
  lemma FieldsWithin(front: Bytes, rest: Bytes, n: nat)
    requires |front| == n + 56
    ensures var b := front + rest;
            && b[0..4] == front[0..4] && b[4..24] == front[4..24] && b[24..24 + n] == front[24..24 + n]
            && b[24 + n..56 + n] == front[24 + n..56 + n] && b[0..56 + n] == front
            && (|rest| >= 4 ==> b[56 + n..60 + n] == rest[..4])
  {
    SliceLeft(front, rest, 0, 4);
    SliceLeft(front, rest, 4, 24);
    SliceLeft(front, rest, 24, 24 + n);
    SliceLeft(front, rest, 24 + n, 56 + n);
  }

  lemma HeadFields(r: StoreRecord, sequence: U64)
    ensures var h := HeadFromKind(r, sequence);
            && h[0..2] == LE(r.kind, 2) && h[2..4] == LE(0, 2) && h[4..12] == LE(sequence, 8)
            && h[12..16] == LE(|r.payload|, 4) && h[16..20] == LE(Crc32c(r.payload), 4)
  {
    hide LE, Crc32c;
    var a, b, c, d, e := LE(r.kind, 2), LE(0, 2), LE(sequence, 8), LE(|r.payload|, 4), LE(Crc32c(r.payload), 4);
    SliceRight(a, b);
    SliceRight(a + b, c);
    SliceRight(a + b + c, d);
    SliceRight(a + b + c + d, e);
    SliceLeft(a + b, c, 0, 2);
    SliceLeft(a + b, c, 2, 4);
    SliceLeft(a + b + c, d, 0, 2);
    SliceLeft(a + b + c, d, 2, 4);
    SliceLeft(a + b + c, d, 4, 12);
    SliceLeft(a + b + c + d, e, 0, 2);
    SliceLeft(a + b + c + d, e, 2, 4);
    SliceLeft(a + b + c + d, e, 4, 12);
    SliceLeft(a + b + c + d, e, 12, 16);
  }

  lemma SubSlice(b: Bytes, i: nat, j: nat, k: nat, m: nat)
    requires i <= j <= |b| && k <= m <= j - i
    ensures b[i..j][k..m] == b[i + k..i + m]
  {
    var x, y := b[i..j][k..m], b[i + k..i + m];
    assert |x| == |y|;
    forall t | 0 <= t < |x|
      ensures x[t] == y[t]
    {
    }
  }

  /** The numbers the scan loads from a frame. */
  ghost predicate HasNumbers(b: Bytes, r: StoreRecord, sequence: U64)
  {
    && |b| >= 24
    && Load(b, 0, 4) == |r.payload| + 56 && Load(b, 4, 2) == r.kind && Load(b, 6, 2) == 0
    && Load(b, 8, 8) == sequence && Load(b, 16, 4) == |r.payload| && Load(b, 20, 4) == Crc32c(r.payload)
  }

  lemma FrameNumbers(step: ChainStep, chain: Bytes, sequence: U64, r: StoreRecord, b: Bytes)
    requires HasFields(step, chain, sequence, r, b) && |r.payload| + 56 < TWO_32
    ensures HasNumbers(b, r, sequence)
  {
    hide LE, Crc32c, HeadFromKind, Covered, Nat;
    Pow256Values();
    HeadFields(r, sequence);
    SubSlice(b, 4, 24, 0, 2);
    SubSlice(b, 4, 24, 2, 4);
    SubSlice(b, 4, 24, 4, 12);
    SubSlice(b, 4, 24, 12, 16);
    SubSlice(b, 4, 24, 16, 20);
    NatOfLE(|r.payload| + 56, 4);
    NatOfLE(r.kind, 2);
    NatOfLE(0, 2);
    NatOfLE(sequence, 8);
    NatOfLE(|r.payload|, 4);
    NatOfLE(Crc32c(r.payload), 4);
  }

  /** The scan reads back the record a frame was made of. */
  lemma ScanReads(step: ChainStep, chain: Bytes, sequence: U64, max: nat, r: StoreRecord, tail: Bytes)
    requires Chains(step) && Storable(r, max)
    ensures ScanFrame(step, chain, sequence, max, Frame(step, chain, sequence, r) + tail)
            == Loaded(r, |r.payload| + 60, NextChain(step, chain, sequence, r))
  {
    hide LE, Crc32c, HeadFromKind, Covered, Nat, Frame;
    var b, n := Frame(step, chain, sequence, r) + tail, |r.payload|;
    FrameFields(step, chain, sequence, r, tail);
    FrameNumbers(step, chain, sequence, r, b);
    Pow256Values();
    NatOfLE(Crc32c(Covered(step, chain, sequence, r)), 4);
    assert Load(b, n + 56, 4) == Crc32c(Covered(step, chain, sequence, r));
    assert b[..n + 56] == b[0..56 + n];
  }

  // ---- Parse, then print ----

  lemma LoadedLE(b: Bytes, at: nat, n: nat)
    requires at + n <= |b|
    ensures b[at..at + n] == LE(Load(b, at, n), n)
  {
    LEOfNat(b[at..at + n]);
  }

  lemma HeadRebuilt(b: Bytes, r: StoreRecord, sequence: U64)
    requires HasNumbers(b, r, sequence)
    ensures b[4..24] == HeadFromKind(r, sequence)
  {
    hide LE, Crc32c, Nat, Load;
    LoadedLE(b, 4, 2);
    LoadedLE(b, 6, 2);
    LoadedLE(b, 8, 8);
    LoadedLE(b, 16, 4);
    LoadedLE(b, 20, 4);
    assert b[4..24] == b[4..6] + b[6..8] + b[8..16] + b[16..20] + b[20..24];
  }

  /** What the scan accepts is exactly the frame Append would write for it. */
  lemma ScanCanonical(step: ChainStep, chain: Bytes, sequence: nat, max: nat, b: Bytes)
    requires ScanFrame(step, chain, sequence, max, b).Loaded?
    ensures var f := ScanFrame(step, chain, sequence, max, b);
            && sequence < TWO_64 && Storable(f.record, max) && f.size == |f.record.payload| + 60
            && f.chain == NextChain(step, chain, sequence, f.record)
            && b[..f.size] == Frame(step, chain, sequence, f.record)
  {
    hide LE, Crc32c, Nat, HeadFromKind;
    Pow256Values();
    var f := ScanFrame(step, chain, sequence, max, b);
    var n := Load(b, 16, 4);
    var r := f.record;
    assert HasNumbers(b, r, sequence);
    HeadRebuilt(b, r, sequence);
    LoadedLE(b, 0, 4);
    LoadedLE(b, n + 56, 4);
    assert b[..n + 56] == b[0..4] + b[4..24] + b[24..24 + n] + b[24 + n..56 + n];
    assert b[..n + 56] == Covered(step, chain, sequence, r);
    assert b[..n + 60] == b[..n + 56] + b[n + 56..n + 60];
  }

  // ---- Whole logs ----

  function WriteLog(step: ChainStep, chain: Bytes, sequence: U64, rs: seq<StoreRecord>): Bytes
    requires sequence + |rs| <= TWO_64 - 1
    decreases |rs|
  {
    if rs == [] then []
    else Frame(step, chain, sequence, rs[0]) + WriteLog(step, NextChain(step, chain, sequence, rs[0]), sequence +
      1, rs[1..])
  }

  function ChainAfter(step: ChainStep, chain: Bytes, sequence: U64, rs: seq<StoreRecord>): Bytes
    requires sequence + |rs| <= TWO_64 - 1
    decreases |rs|
  {
    if rs == [] then chain else ChainAfter(step, NextChain(step, chain, sequence, rs[0]), sequence + 1, rs[1..])
  }

  predicate AllStorable(rs: seq<StoreRecord>, max: nat) { forall i :: 0 <= i < |rs| ==> Storable(rs[i], max) }

  /** The rest of a scan, with one record before it. */
  function Cons(r: StoreRecord, size: nat, rest: ScanResult): ScanResult
  {
    ScanResult([r] + rest.records, size + rest.bytes, rest.stop, rest.chain)
  }

  lemma ScanOn(step: ChainStep, chain: Bytes, sequence: nat, max: nat, b: Bytes)
    requires b != [] && ScanFrame(step, chain, sequence, max, b).Loaded?
    ensures var f := ScanFrame(step, chain, sequence, max, b);
            Scan(step, chain, sequence, max, b) == Cons(f.record, f.size,
              Scan(step, f.chain, sequence + 1, max, b[f.size..]))
  {
    hide ScanFrame;
  }

  /** The scan of one frame and what follows it. */
  lemma ScanFramed(step: ChainStep, chain: Bytes, sequence: U64, max: nat, r: StoreRecord, tail: Bytes)
    requires Chains(step) && Storable(r, max)
    ensures Scan(step, chain, sequence, max, Frame(step, chain, sequence, r) + tail)
            == Cons(r, |Frame(step, chain, sequence, r)|,
              Scan(step, NextChain(step, chain, sequence, r), sequence + 1, max, tail))
  {
    hide Frame, ScanFrame, Scan;
    var frame := Frame(step, chain, sequence, r);
    FrameSize(step, chain, sequence, r);
    ScanReads(step, chain, sequence, max, r, tail);
    ScanOn(step, chain, sequence, max, frame + tail);
    SliceRight(frame, tail);
  }

  /** The rest of a scan, with records before it. */
  function Prepend(rs: seq<StoreRecord>, size: nat, rest: ScanResult): ScanResult
  {
    ScanResult(rs + rest.records, size + rest.bytes, rest.stop, rest.chain)
  }

  lemma PrependCons(r: StoreRecord, size: nat, rs: seq<StoreRecord>, more: nat, rest: ScanResult)
    ensures Cons(r, size, Prepend(rs, more, rest)) == Prepend([r] + rs, size + more, rest)
  {
    assert [r] + (rs + rest.records) == ([r] + rs) + rest.records;
  }

  /** The scan of a written log followed by anything: the records, then the scan of the rest. */
  lemma {:induction false} ScanThrough(step: ChainStep, chain: Bytes, sequence: U64, max: nat, rs: seq<StoreRecord>,
                                       tail: Bytes)
    requires Chains(step) && AllStorable(rs, max) && sequence + |rs| <= TWO_64 - 1
    ensures Scan(step, chain, sequence, max, WriteLog(step, chain, sequence, rs) + tail)
            == Prepend(rs, |WriteLog(step, chain, sequence, rs)|,
              Scan(step, ChainAfter(step, chain, sequence, rs), sequence + |rs|, max, tail))
    decreases |rs|
  {
    hide Frame, ScanFrame, Scan, Cons, Prepend, NextChain;
    if rs == [] {
      assert WriteLog(step, chain, sequence, rs) + tail == tail;
      PrependNothing(Scan(step, chain, sequence, max, tail));
    } else {
      var next := NextChain(step, chain, sequence, rs[0]);
      var frame, more := Frame(step, chain, sequence, rs[0]), WriteLog(step, next, sequence + 1, rs[1..]);
      assert WriteLog(step, chain, sequence, rs) + tail == frame + (more + tail);
      ScanFramed(step, chain, sequence, max, rs[0], more + tail);
      ScanThrough(step, next, sequence + 1, max, rs[1..], tail);
      assert rs == [rs[0]] + rs[1..];
      PrependCons(rs[0], |frame|, rs[1..], |more|, Scan(step, ChainAfter(step, chain, sequence, rs), sequence +
        |rs|, max, tail));
    }
  }

  lemma PrependNothing(rest: ScanResult)
    ensures Prepend([], 0, rest) == rest
  {
  }

  /** Parse undoes print: the scan of appended records returns exactly those records. */
  lemma ScanOfLog(step: ChainStep, chain: Bytes, sequence: U64, max: nat, rs: seq<StoreRecord>)
    requires Chains(step) && AllStorable(rs, max) && sequence + |rs| <= TWO_64 - 1
    ensures Scan(step, chain, sequence, max, WriteLog(step, chain, sequence, rs))
            == ScanResult(rs, |WriteLog(step, chain, sequence, rs)|, None, ChainAfter(step, chain, sequence, rs))
  {
    ScanThrough(step, chain, sequence, max, rs, []);
    assert WriteLog(step, chain, sequence, rs) + [] == WriteLog(step, chain, sequence, rs);
  }

  /** The accepted prefix, and what it is made of. */
  ghost predicate IsLog(step: ChainStep, chain: Bytes, sequence: nat, max: nat, b: Bytes, rs: seq<StoreRecord>)
  {
    && AllStorable(rs, max)
    && (sequence + |rs| <= TWO_64 - 1 ==> b == WriteLog(step, chain, sequence, rs))
  }

  lemma LogCons(step: ChainStep, chain: Bytes, sequence: U64, max: nat, r: StoreRecord, b: Bytes, rs: seq<StoreRecord>)
    requires Storable(r, max) && IsLog(step, NextChain(step, chain, sequence, r), sequence + 1, max, b, rs)
    ensures IsLog(step, chain, sequence, max, Frame(step, chain, sequence, r) + b, [r] + rs)
  {
    hide Frame;
    assert ([r] + rs)[1..] == rs;
  }

  /** Print undoes parse: whatever prefix the scan accepts is what Append would write for its records. */
  lemma {:induction false} LogOfScan(step: ChainStep, chain: Bytes, sequence: nat, max: nat, b: Bytes)
    ensures var r := Scan(step, chain, sequence, max, b);
            IsLog(step, chain, sequence, max, b[..r.bytes], r.records)
    decreases |b|
  {
    hide Frame, ScanFrame, Cons, IsLog;
    var r := Scan(step, chain, sequence, max, b);
    if b == [] || ScanFrame(step, chain, sequence, max, b).Stop? {
      assert b[..r.bytes] == [];
      NothingIsLog(step, chain, sequence, max);
    } else {
      var f := ScanFrame(step, chain, sequence, max, b);
      ScanCanonical(step, chain, sequence, max, b);
      LogOfScan(step, f.chain, sequence + 1, max, b[f.size..]);
      var rest := Scan(step, f.chain, sequence + 1, max, b[f.size..]);
      LogCons(step, chain, sequence, max, f.record, b[f.size..][..rest.bytes], rest.records);
      assert b[..r.bytes] == b[..f.size] + b[f.size..][..rest.bytes];
    }
  }

  lemma NothingIsLog(step: ChainStep, chain: Bytes, sequence: nat, max: nat)
    ensures IsLog(step, chain, sequence, max, [], [])
  {
  }

  // ---- Cuts ----

  /** How many whole frames lie before byte k. */
  function WholeBefore(step: ChainStep, chain: Bytes, sequence: U64, rs: seq<StoreRecord>, k: nat): (m: nat)
    requires sequence + |rs| <= TWO_64 - 1
    ensures m <= |rs|
    decreases |rs|
  {
    if rs == [] || k < |Frame(step, chain, sequence, rs[0])| then 0
    else 1 + WholeBefore(step, NextChain(step, chain, sequence, rs[0]), sequence +
      1, rs[1..], k - |Frame(step, chain, sequence, rs[0])|)
  }

  /** A torn frame is recognised as a torn tail. */
  lemma TornFrame(step: ChainStep, chain: Bytes, sequence: U64, max: nat, r: StoreRecord, k: nat)
    requires Chains(step) && Storable(r, max) && k < |Frame(step, chain, sequence, r)|
    ensures ScanFrame(step, chain, sequence, max, Frame(step, chain, sequence, r)[..k]) == Stop(TruncatedTail)
  {
    hide LE, Crc32c, HeadFromKind, Covered, Nat, Frame;
    var frame := Frame(step, chain, sequence, r);
    FrameSize(step, chain, sequence, r);
    if k >= 24 {
      FrameFields(step, chain, sequence, r, []);
      assert frame + [] == frame;
      FrameNumbers(step, chain, sequence, r, frame);
      assert frame[..k][0..4] == frame[0..4];
    }
  }

  /** The scan of a cut log: exactly the whole records before the cut, and a torn tail unless it falls between two. */
  lemma {:induction false} CutScan(step: ChainStep, chain: Bytes, sequence: U64, max: nat, rs: seq<StoreRecord>, k: nat)
    requires Chains(step) && AllStorable(rs, max) && sequence + |rs| <= TWO_64 - 1
    requires k <= |WriteLog(step, chain, sequence, rs)|
    ensures var m := WholeBefore(step, chain, sequence, rs, k);
            var kept := WriteLog(step, chain, sequence, rs[..m]);
            && kept <= WriteLog(step, chain, sequence, rs)[..k]
            && Scan(step, chain, sequence, max, WriteLog(step, chain, sequence, rs)[..k])
               == ScanResult(rs[..m], |kept|, if k == |kept| then None
                 else Some(TruncatedTail), ChainAfter(step, chain, sequence, rs[..m]))
    decreases |rs|
  {
    hide Frame, ScanFrame, NextChain;
    var m := WholeBefore(step, chain, sequence, rs, k);
    if rs == [] {
      assert WriteLog(step, chain, sequence, rs)[..k] == [];
    } else {
      var frame := Frame(step, chain, sequence, rs[0]);
      var next := NextChain(step, chain, sequence, rs[0]);
      var more := WriteLog(step, next, sequence + 1, rs[1..]);
      if k < |frame| {
        assert (frame + more)[..k] == frame[..k];
        assert rs[..m] == [];
        TornFrame(step, chain, sequence, max, rs[0], k);
      } else {
        CutScan(step, next, sequence + 1, max, rs[1..], k - |frame|);
        CutOn(step, chain, sequence, max, rs, k);
      }
    }
  }

  /** One frame further. */
  lemma CutOn(step: ChainStep, chain: Bytes, sequence: U64, max: nat, rs: seq<StoreRecord>, k: nat)
    requires Chains(step) && AllStorable(rs, max) && sequence + |rs| <= TWO_64 - 1 && rs != []
    requires |Frame(step, chain, sequence, rs[0])| <= k <= |WriteLog(step, chain, sequence, rs)|
    ensures var frame, next := Frame(step, chain, sequence, rs[0]), NextChain(step, chain, sequence, rs[0]);
            var more := WriteLog(step, next, sequence + 1, rs[1..]);
            var m := WholeBefore(step, next, sequence + 1, rs[1..], k - |frame|);
            && k - |frame| <= |more|
            && WholeBefore(step, chain, sequence, rs, k) == m + 1
            && WriteLog(step, chain, sequence, rs)[..k] == frame + more[..k - |frame|]
            && WriteLog(step, chain, sequence, rs[..m + 1]) == frame + WriteLog(step, next, sequence + 1, rs[1..][..m])
            && ChainAfter(step, chain, sequence, rs[..m + 1]) == ChainAfter(step, next, sequence + 1, rs[1..][..m])
            && Scan(step, chain, sequence, max, frame + more[..k - |frame|])
               == Cons(rs[0], |frame|, Scan(step, next, sequence + 1, max, more[..k - |frame|]))
            && rs[..m + 1] == [rs[0]] + rs[1..][..m]
  {
    hide Frame, ScanFrame, NextChain, Scan;
    var frame, next := Frame(step, chain, sequence, rs[0]), NextChain(step, chain, sequence, rs[0]);
    var more := WriteLog(step, next, sequence + 1, rs[1..]);
    var m := WholeBefore(step, next, sequence + 1, rs[1..], k - |frame|);
    ScanFramed(step, chain, sequence, max, rs[0], more[..k - |frame|]);
    assert rs[..m + 1][1..] == rs[1..][..m];
    assert (frame + more)[..k] == frame + more[..k - |frame|];
  }

  // ---- One damaged byte ----

  /** The sequences are equally long and differ in byte i only. */
  predicate DifferAt(a: Bytes, b: Bytes, i: nat)
  {
    |a| == |b| && i < |a| && a[i] != b[i] && a[..i] == b[..i] && a[i + 1..] == b[i + 1..]
  }

  lemma DifferElsewhere(a: Bytes, b: Bytes, i: nat, lo: nat, hi: nat)
    requires DifferAt(a, b, i) && lo <= hi <= |a| && (i < lo || i >= hi)
    ensures a[lo..hi] == b[lo..hi]
  {
    forall k | lo <= k < hi
      ensures a[k] == b[k]
    {
      if k < i {
        assert a[k] == a[..i][k] && b[k] == b[..i][k];
      } else {
        assert a[k] == a[i + 1..][k - i - 1] && b[k] == b[i + 1..][k - i - 1];
      }
    }
  }

  lemma DifferWithin(a: Bytes, b: Bytes, i: nat, n: nat)
    requires DifferAt(a, b, i) && i < n <= |a|
    ensures DifferAt(a[..n], b[..n], i)
  {
    assert a[..n][..i] == a[..i] && b[..n][..i] == b[..i];
    DifferElsewhere(a, b, i, i + 1, n);
    assert a[..n][i + 1..] == a[i + 1..n] && b[..n][i + 1..] == b[i + 1..n];
  }

  /** A checksummed part and its checksum never survive the change of one byte. */
  lemma ChecksumBroken(a: Bytes, b: Bytes, i: nat, n: nat)
    requires DifferAt(a, b, i) && |a| == n + 4
    requires a[n..n + 4] == LE(Crc32c(a[..n]), 4)
    ensures b[n..n + 4] != LE(Crc32c(b[..n]), 4)
  {
    hide Crc32c, LE;
    Pow256Values();
    if i < n {
      DifferWithin(a, b, i, n);
      ChecksumsDiffer(a[..n], b[..n], i);
      DifferElsewhere(a, b, i, n, n + 4);
    } else {
      DifferElsewhere(a, b, i, 0, n);
      assert a[..n] == a[0..n] && b[..n] == b[0..n];
      SliceChanged(a, b, i, n, n + 4);
    }
  }

  lemma ChecksumsDiffer(a: Bytes, b: Bytes, i: nat)
    requires DifferAt(a, b, i)
    ensures LE(Crc32c(a), 4) != LE(Crc32c(b), 4)
  {
    hide Crc32c, LE;
    Pow256Values();
    OneByteDetected(a, b, i);
    if LE(Crc32c(a), 4) == LE(Crc32c(b), 4) {
      LEInjective(Crc32c(a), Crc32c(b), 4);
      assert false;
    }
  }

  lemma SliceChanged(a: Bytes, b: Bytes, i: nat, lo: nat, hi: nat)
    requires |a| == |b| && lo <= i < hi <= |a| && a[i] != b[i]
    ensures a[lo..hi] != b[lo..hi]
  {
    assert a[lo..hi][i - lo] == a[i] && b[lo..hi][i - lo] == b[i];
  }

  /** One changed byte anywhere in a frame stops the scan there. */
  lemma DamagedFrame(step: ChainStep, chain: Bytes, sequence: U64, max: nat, r: StoreRecord, damaged: Bytes, i: nat,
                     tail: Bytes)
    requires Chains(step) && Storable(r, max) && DifferAt(Frame(step, chain, sequence, r), damaged, i)
    ensures ScanFrame(step, chain, sequence, max, damaged + tail).Stop?
  {
    hide LE, Crc32c, HeadFromKind, Covered, Nat, Frame, ScanFrame, DifferAt;
    var b := damaged + tail;
    if ScanFrame(step, chain, sequence, max, b).Loaded? {
      var f := ScanFrame(step, chain, sequence, max, b);
      ScanCanonical(step, chain, sequence, max, b);
      SameLength(step, chain, sequence, r, f.record, damaged, i, tail);
      SameSizeBroken(step, chain, sequence, r, f.record, damaged, i);
      assert false;
    }
  }

  /** The two length fields of a frame guard each other. */
  lemma SameLength(step: ChainStep, chain: Bytes, sequence: U64, r: StoreRecord, r': StoreRecord, damaged: Bytes,
                   i: nat, tail: Bytes)
    requires Chains(step) && |r.payload| + 56 < TWO_32 && |r'.payload| + 56 < TWO_32
    requires DifferAt(Frame(step, chain, sequence, r), damaged, i)
    requires |r'.payload| + 60 <= |damaged + tail| && (damaged + tail)[..|r'.payload| + 60] ==
            Frame(step, chain, sequence, r')
    ensures |r'.payload| == |r.payload| && damaged == Frame(step, chain, sequence, r')
  {
    hide LE, Crc32c, HeadFromKind, Covered, Nat, Frame;
    var frame, frame' := Frame(step, chain, sequence, r), Frame(step, chain, sequence, r');
    FrameSize(step, chain, sequence, r);
    FrameSize(step, chain, sequence, r');
    FrameFields(step, chain, sequence, r, []);
    FrameFields(step, chain, sequence, r', []);
    assert frame + [] == frame && frame' + [] == frame';
    FrameNumbers(step, chain, sequence, r, frame);
    FrameNumbers(step, chain, sequence, r', frame');
    assert damaged[0..4] == frame'[0..4] && damaged[16..20] == frame'[16..20];
    if i < 4 {
      DifferElsewhere(frame, damaged, i, 16, 20);
    } else {
      DifferElsewhere(frame, damaged, i, 0, 4);
    }
    assert |r'.payload| == |r.payload|;
    assert (damaged + tail)[..|damaged|] == damaged;
  }

  lemma SameSizeBroken(step: ChainStep, chain: Bytes, sequence: U64, r: StoreRecord, r': StoreRecord, damaged: Bytes,
                       i: nat)
    requires Chains(step) && |r'.payload| == |r.payload|
    requires DifferAt(Frame(step, chain, sequence, r), damaged, i)
    ensures damaged != Frame(step, chain, sequence, r')
  {
    hide LE, Crc32c, HeadFromKind, Covered, Nat, DifferAt, Frame;
    var n := |r.payload| + 56;
    var frame, frame' := Frame(step, chain, sequence, r), Frame(step, chain, sequence, r');
    FrameSize(step, chain, sequence, r);
    FrameSize(step, chain, sequence, r');
    FrameFields(step, chain, sequence, r, []);
    FrameFields(step, chain, sequence, r', []);
    assert frame + [] == frame && frame' + [] == frame';
    assert frame[..n] == frame[0..n] && frame'[..n] == frame'[0..n];
    ChecksumBroken(frame, damaged, i, n);
  }

  /** Changing any one byte of record i makes the scan load exactly the records before it and stop. */
  lemma DamagedLog(step: ChainStep, chain: Bytes, sequence: U64, max: nat, before: seq<StoreRecord>, r: StoreRecord,
                   damaged: Bytes, i: nat, tail: Bytes)
    requires Chains(step) && AllStorable(before, max) && Storable(r, max) && sequence + |before| < TWO_64 - 1
    requires DifferAt(Frame(step, ChainAfter(step, chain, sequence, before), sequence + |before|, r), damaged, i)
    ensures var s := Scan(step, chain, sequence, max, WriteLog(step, chain, sequence, before) + damaged + tail);
            s.records == before && s.bytes == |WriteLog(step, chain, sequence, before)| && s.stop.Some?
  {
    hide Frame, ScanFrame;
    var log := WriteLog(step, chain, sequence, before);
    assert log + damaged + tail == log + (damaged + tail);
    ScanThrough(step, chain, sequence, max, before, damaged + tail);
    DamagedFrame(step, ChainAfter(step, chain, sequence, before), sequence + |before|, max, r, damaged, i, tail);
  }

  // ---- The file ----

  const MAGIC: Bytes := [0x43, 0x41, 0x42, 0x4C, 0x45, 0x41, 0x52, 0x47]
  const FORMAT_VERSION: nat := 1

  function HeaderFront(): (r: Bytes)
    ensures |r| == 20
  {
    MAGIC + LE(FORMAT_VERSION, 4) + LE(0, 4) + LE(HEADER_BYTES, 4)
  }

  /** fill_header() */
  function FileHeader(): (r: Bytes)
    ensures |r| == HEADER_BYTES
  {
    HeaderFront() + LE(Crc32c(HeaderFront()), 4)
  }

  /** The header checks of Open. */
  predicate HeaderAccepted(h: Bytes)
    requires |h| == HEADER_BYTES
  {
    && h[..8] == MAGIC && Load(h, 20, 4) == Crc32c(h[..20])
    && Load(h, 8, 4) == FORMAT_VERSION && Load(h, 16, 4) == HEADER_BYTES
  }

  lemma WrittenHeaderAccepted()
    ensures HeaderAccepted(FileHeader())
  {
    hide Crc32c, LE, Nat;
    Pow256Values();
    var front, k := HeaderFront(), LE(Crc32c(HeaderFront()), 4);
    var a, b, c := LE(FORMAT_VERSION, 4), LE(0, 4), LE(HEADER_BYTES, 4);
    SliceRight(front, k);
    SliceLeft(front, k, 0, 8);
    SliceLeft(front, k, 8, 12);
    SliceLeft(front, k, 16, 20);
    SliceRight(MAGIC, a);
    SliceRight(MAGIC + a, b);
    SliceRight(MAGIC + a + b, c);
    SliceLeft(MAGIC + a, b, 0, 8);
    SliceLeft(MAGIC + a, b, 8, 12);
    SliceLeft(MAGIC + a + b, c, 0, 8);
    SliceLeft(MAGIC + a + b, c, 8, 12);
    NatOfLE(FORMAT_VERSION, 4);
    NatOfLE(HEADER_BYTES, 4);
    NatOfLE(Crc32c(front), 4);
    assert FileHeader()[..8] == front[0..8];
    assert FileHeader()[20..24] == k;
  }

  /** Any one-byte change of the file header is refused. */
  lemma DamagedHeader(h: Bytes, i: nat)
    requires DifferAt(FileHeader(), h, i)
    ensures !HeaderAccepted(h)
  {
    hide Crc32c, LE, Nat, HeaderFront;
    var front, k := HeaderFront(), LE(Crc32c(HeaderFront()), 4);
    SliceRight(front, k);
    assert FileHeader()[20..24] == k;
    ChecksumBroken(FileHeader(), h, i, 20);
    LoadedLE(h, 20, 4);
  }
}

// The store file: a header and a log, as Open finds it.
module StoreFile {
  import opened Words
  import opened LittleEndian
  import opened Crc
  import opened State
  import opened Log

  /** How a store is configured: its chain, the digest of nothing, and the record limit. */
  datatype Config = Config(step: ChainStep, seed: Bytes, max: nat)

  const FIRST: U64 := 1

  /** At most this many records fit the 64-bit sequence. */
  predicate Numbered(rs: seq<StoreRecord>) { FIRST + |rs| <= TWO_64 - 1 }

  ghost predicate Keeps(c: Config, rs: seq<StoreRecord>) { Chains(c.step) && Numbered(rs) && AllStorable(rs, c.max) }

  function LogOf(c: Config, rs: seq<StoreRecord>): Bytes
    requires Numbered(rs)
  {
    WriteLog(c.step, c.seed, FIRST, rs)
  }

  function FileOf(c: Config, rs: seq<StoreRecord>): Bytes
    requires Numbered(rs)
  {
    FileHeader() + LogOf(c, rs)
  }

  datatype OpenResult = Created | Refused | Opened(records: seq<StoreRecord>, bytes: nat, stop: Option<StopReason>)

  /** Store::Open(): everything but an incomplete tail is fatal under the strict policy. */
  function OpenFile(c: Config, strict: bool, file: Bytes): OpenResult
  {
    if file == [] then Created
    else if |file| < HEADER_BYTES || !HeaderAccepted(file[..HEADER_BYTES]) then Refused
    else
      var s := Scan(c.step, c.seed, FIRST, c.max, file[HEADER_BYTES..]);
      if s.stop.Some? && s.stop.value != TruncatedTail && strict then Refused
      else Opened(s.records, HEADER_BYTES + s.bytes, s.stop)
  }

  /** The file after Open: a salvaged tail is truncated away. */
  function FileAfterOpen(c: Config, strict: bool, file: Bytes): Bytes
  {
    match OpenFile(c, strict, file)
    case Created => FileHeader()
    case Refused => file
    case Opened(_, bytes, _) => if bytes <= |file| then file[..bytes] else file
  }

  lemma HeaderSplit(tail: Bytes)
    ensures (FileHeader() + tail)[..HEADER_BYTES] == FileHeader() && (FileHeader() + tail)[HEADER_BYTES..] == tail
  {
    hide FileHeader;
    SliceRight(FileHeader(), tail);
  }

  /** A written file opens cleanly, with its records. */
  lemma OpenWritten(c: Config, strict: bool, rs: seq<StoreRecord>)
    requires Keeps(c, rs)
    ensures OpenFile(c, strict, FileOf(c, rs)) == Opened(rs, |FileOf(c, rs)|, None)
    ensures FileAfterOpen(c, strict, FileOf(c, rs)) == FileOf(c, rs)
  {
    hide Scan, WriteLog, FileHeader, HeaderAccepted;
    WrittenHeaderAccepted();
    HeaderSplit(LogOf(c, rs));
    ScanOfLog(c.step, c.seed, FIRST, c.max, rs);
  }

  /**
    * Cutting a file at any byte at or after its header loses exactly the records the cut reaches:
    * it opens even under the strict policy, and the truncated file opens cleanly.
    */
  lemma CutIsSafe(c: Config, strict: bool, rs: seq<StoreRecord>, k: nat)
    requires Keeps(c, rs) && HEADER_BYTES <= k <= |FileOf(c, rs)|
    ensures var m := WholeBefore(c.step, c.seed, FIRST, rs, k - HEADER_BYTES);
            var cut := FileOf(c, rs)[..k];
            && Keeps(c, rs[..m]) && |FileOf(c, rs[..m])| <= k
            && OpenFile(c, strict, cut)
               == Opened(rs[..m], |FileOf(c, rs[..m])|, if k == |FileOf(c, rs[..m])| then None else Some(TruncatedTail))
            && FileAfterOpen(c, strict, cut) == FileOf(c, rs[..m])
  {
    hide Scan, WriteLog, FileHeader, HeaderAccepted, WholeBefore;
    var n := k - HEADER_BYTES;
    var m := WholeBefore(c.step, c.seed, FIRST, rs, n);
    var log, cut := LogOf(c, rs), FileOf(c, rs)[..k];
    WrittenHeaderAccepted();
    HeaderSplit(log);
    assert cut == FileHeader() + log[..n];
    HeaderSplit(log[..n]);
    CutScan(c.step, c.seed, FIRST, c.max, rs, n);
    var kept := LogOf(c, rs[..m]);
    assert cut[..HEADER_BYTES + |kept|] == FileHeader() + kept;
  }

  /** A store that crashed before its header was complete is refused. */
  lemma TornHeaderRefused(c: Config, strict: bool, k: nat)
    requires 0 < k < HEADER_BYTES
    ensures OpenFile(c, strict, FileHeader()[..k]) == Refused
  {
  }

  /** Any one-byte change of the header is refused. */
  lemma DamagedHeaderRefused(c: Config, strict: bool, rs: seq<StoreRecord>, h: Bytes, i: nat)
    requires Numbered(rs) && DifferAt(FileHeader(), h, i)
    ensures OpenFile(c, strict, h + LogOf(c, rs)) == Refused
  {
    hide Scan, WriteLog, FileHeader, HeaderAccepted;
    DamagedHeader(h, i);
    SliceRight(h, LogOf(c, rs));
  }

  /** Any one-byte change of a record: the records before it, or a refusal under the strict policy. */
  lemma DamagedRecord(c: Config, strict: bool, before: seq<StoreRecord>, r: StoreRecord, damaged: Bytes, i: nat,
                      tail: Bytes)
    requires Keeps(c, before + [r])
    requires DifferAt(Frame(c.step, ChainAfter(c.step, c.seed, FIRST, before), FIRST + |before|, r), damaged, i)
    ensures var open := OpenFile(c, strict, FileOf(c, before) + damaged + tail);
            && (open.Opened? ==> open.records == before && open.bytes == |FileOf(c, before)| && open.stop.Some?)
            && (open.Opened? || strict) && !open.Created?
            && (open.Opened? ==> FileAfterOpen(c, strict, FileOf(c, before) + damaged + tail) == FileOf(c, before))
  {
    hide Scan, WriteLog, FileHeader, HeaderAccepted, Frame, ChainAfter, DifferAt;
    var log := LogOf(c, before);
    KeepsParts(c, before, r);
    Regroup(FileHeader(), log, damaged, tail);
    HeaderSplit(log + damaged + tail);
    WrittenHeaderAccepted();
    DamagedLog(c.step, c.seed, FIRST, c.max, before, r, damaged, i, tail);
  }

  lemma KeepsParts(c: Config, before: seq<StoreRecord>, r: StoreRecord)
    requires Keeps(c, before + [r])
    ensures Keeps(c, before) && Storable(r, c.max) && FIRST + |before| < TWO_64 - 1
  {
    assert forall j :: 0 <= j < |before| ==> before[j] == (before + [r])[j];
    assert (before + [r])[|before|] == r;
  }

  lemma Regroup(h: Bytes, log: Bytes, damaged: Bytes, tail: Bytes)
    ensures h + log + damaged + tail == h + (log + damaged + tail)
    ensures (h + log + damaged + tail)[..|h + log|] == h + log
  {
  }

  /** Appending to a file is appending a frame to it. */
  lemma AppendedFile(c: Config, rs: seq<StoreRecord>, r: StoreRecord)
    requires Chains(c.step) && Numbered(rs + [r])
    ensures FileOf(c, rs + [r]) == FileOf(c, rs) + Frame(c.step, ChainAfter(c.step, c.seed, FIRST, rs), FIRST + |rs|, r)
    ensures ChainAfter(c.step, c.seed, FIRST, rs + [r]) ==
            NextChain(c.step, ChainAfter(c.step, c.seed, FIRST, rs), FIRST + |rs|, r)
  {
    hide Frame, FileHeader, WriteLog, ChainAfter, NextChain;
    LogAppend(c.step, c.seed, FIRST, rs, r);
  }

  lemma {:induction false} LogAppend(step: ChainStep, chain: Bytes, sequence: U64, rs: seq<StoreRecord>, r: StoreRecord)
    requires sequence + |rs| + 1 <= TWO_64 - 1
    ensures WriteLog(step, chain, sequence, rs + [r])
            == WriteLog(step, chain, sequence, rs) + Frame(step, ChainAfter(step, chain, sequence, rs), sequence +
              |rs|, r)
    ensures ChainAfter(step, chain, sequence, rs + [r]) ==
            NextChain(step, ChainAfter(step, chain, sequence, rs), sequence + |rs|, r)
    decreases |rs|
  {
    hide Frame, NextChain;
    if rs == [] {
      assert rs + [r] == [r] && [r][1..] == [];
    } else {
      assert (rs + [r])[0] == rs[0] && (rs + [r])[1..] == rs[1..] + [r];
      LogAppend(step, NextChain(step, chain, sequence, rs[0]), sequence + 1, rs[1..], r);
    }
  }
}
