// The store object: a file of checksummed, hash-chained frames, appended to in place, scanned
// when opened, replayed once, and replaced whole when rewritten.

module StoreObject {
  import opened Words
  import opened LittleEndian
  import opened State
  import opened ByteArrays
  import opened Log
  import opened StoreFile
  import Crc
  import Sha256

  /** chain_step(): the digest of the previous digest, the header from its kind on, and the payload. */
  function ShaStep(): ChainStep
  {
    (previous: Bytes, head: Bytes, payload: Bytes) => Sha256.Hash(previous + head + payload)
  }

  function ShaConfig(max: nat): Config { Config(ShaStep(), Sha256.Hash([]), max) }

  lemma ShaChains(max: nat)
    ensures Chains(ShaConfig(max).step)
  {
    hide Sha256.Hash;
  }

  method NextDigest(chain: Bytes, head: Bytes, payload: Bytes) returns (next: Bytes)
    ensures next == ShaStep()(chain, head, payload) && |next| == CHAIN_BYTES
  {
    hide Sha256.Hash;
    next := Sha256.Compute([chain, head, payload]);
    assert [chain, head, payload][..2] == [chain, head] && [chain, head][..1] == [chain] && [chain][..0] == [];
    assert Sha256.Joined([chain]) == chain;
    assert Sha256.Joined([chain, head]) == chain + head;
    assert Sha256.Joined([chain, head, payload]) == chain + head + payload;
  }

  method FillHead(a: array<U8>, sequence: U64, r: StoreRecord)
    requires a.Length == |r.payload| + 60
    modifies a
    ensures a[..24] == LE(|r.payload| + 56, 4) + HeadFromKind(r, sequence) && a[4..24] == HeadFromKind(r, sequence)
  {
    hide LE, Crc.Crc32c;
    var n := |r.payload|;
    var payloadCrc := Crc.Compute(r.payload);
    Extend(a, 0, 4, n + 56);
    Extend(a, 4, 2, r.kind);
    Extend(a, 6, 2, 0);
    Extend(a, 8, 8, sequence);
    Extend(a, 16, 4, n);
    Extend(a, 20, 4, payloadCrc);
    assert a[..0] == [];
    assert a[..24] == LE(n + 56, 4) + HeadFromKind(r, sequence);
    assert a[4..24] == a[..24][4..];
    SliceRight(LE(n + 56, 4), HeadFromKind(r, sequence));
  }

  /** The part of Append that fills the frame buffer. */
  method BuildFrame(chain: Bytes, sequence: U64, r: StoreRecord) returns (a: array<U8>, next: Bytes)
    ensures fresh(a) && a[..] == Frame(ShaStep(), chain, sequence, r)
    ensures next == NextChain(ShaStep(), chain, sequence, r)
  {
    hide LE, Crc.Crc32c, Sha256.Hash, ShaStep, HeadFromKind;
    var n := |r.payload|;
    a := new U8[n + 60];
    FillHead(a, sequence, r);
    next := NextDigest(chain, a[4..24], r.payload);
    ExtendBytes(a, 24, r.payload);
    ExtendBytes(a, 24 + n, next);
    assert a[..56 + n] == Covered(ShaStep(), chain, sequence, r);
    var frameCrc := Crc.Compute(a[..56 + n]);
    Extend(a, 56 + n, 4, frameCrc);
    assert a[..] == a[..60 + n];
  }

  // ---- The scan ----

  /** The checks of one turn of the scan, in order, on the bytes from the current offset on. */
  method ReadFrame(chain: Bytes, sequence: nat, max: nat, b: Bytes) returns (r: FrameResult)
    ensures r == ScanFrame(ShaStep(), chain, sequence, max, b)
  {
    hide Crc.Crc32c, Sha256.Hash, ShaStep, Nat;
    Pow256Values();
    if |b| < 24 { return Stop(TruncatedTail); }
    var frameBytes := LoadWord(b, 0, 4);
    var kind := LoadWord(b, 4, 2);
    var flags := LoadWord(b, 6, 2);
    var recordSequence := LoadWord(b, 8, 8);
    var payloadBytes := LoadWord(b, 16, 4);
    if frameBytes + 4 > |b| { return Stop(TruncatedTail); }
    if frameBytes < 56 || flags != 0 || !ValidKind(kind) || payloadBytes + 60 != frameBytes + 4 || payloadBytes > max {
      return Stop(CorruptRecord);
    }
    if recordSequence != sequence { return Stop(ChainBreak); }
    var payloadCrc := LoadWord(b, 20, 4);
    var frameCrc := LoadWord(b, payloadBytes + 56, 4);
    var payload := b[24..24 + payloadBytes];
    var covered := Crc.Compute(b[..payloadBytes + 56]);
    if frameCrc != covered { return Stop(CorruptRecord); }
    var content := Crc.Compute(payload);
    if content != payloadCrc { return Stop(CorruptRecord); }
    var next := NextDigest(chain, b[4..24], payload);
    if b[24 + payloadBytes..56 + payloadBytes] != next { return Stop(ChainBreak); }
    r := Loaded(StoreRecord(kind, payload), payloadBytes + 60, next);
  }

  /** The scan of Open over the bytes behind the file header. */
  method ScanLog(seed: Bytes, max: nat, b: Bytes) returns (r: ScanResult)
    ensures r == Scan(ShaStep(), seed, FIRST, max, b)
  {
    hide ScanFrame, ShaStep, Scan, Prepend, Cons;
    var offset, sequence, chain, loaded := 0, FIRST as nat, seed, [];
    PrependNothing(Scan(ShaStep(), seed, FIRST, max, b));
    assert b[0..] == b;
    while offset < |b|
      invariant 0 <= offset <= |b|
      invariant Scan(ShaStep(), seed, FIRST, max, b) ==
                Prepend(loaded, offset, Scan(ShaStep(), chain, sequence, max, b[offset..]))
    {
      var f := ReadFrame(chain, sequence, max, b[offset..]);
      if f.Stop? {
        ScanStops(ShaStep(), chain, sequence, max, b[offset..]);
        PrependStop(loaded, offset, f.reason, chain);
        return ScanResult(loaded, offset, Some(f.reason), chain);
      }
      ScanOn(ShaStep(), chain, sequence, max, b[offset..]);
      ScanFits(ShaStep(), chain, sequence, max, b[offset..]);
      assert b[offset..][f.size..] == b[offset + f.size..];
      PrependMore(loaded, offset, f.record, f.size, Scan(ShaStep(), f.chain, sequence + 1, max, b[offset + f.size..]));
      loaded, offset, chain, sequence := loaded + [f.record], offset + f.size, f.chain, sequence + 1;
    }
    assert b[offset..] == [];
    ScanNothing(ShaStep(), chain, sequence, max, loaded, offset);
    r := ScanResult(loaded, offset, None, chain);
  }

  lemma ScanFits(step: ChainStep, chain: Bytes, sequence: nat, max: nat, b: Bytes)
    ensures var f := ScanFrame(step, chain, sequence, max, b); f.Loaded? ==> 60 <= f.size <= |b|
  {
    hide CheckFrame;
  }

  lemma ScanStops(step: ChainStep, chain: Bytes, sequence: nat, max: nat, b: Bytes)
    requires b != [] && ScanFrame(step, chain, sequence, max, b).Stop?
    ensures Scan(step, chain, sequence, max, b) == ScanResult([], 0,
            Some(ScanFrame(step, chain, sequence, max, b).reason), chain)
  {
    hide ScanFrame;
  }

  lemma PrependStop(loaded: seq<StoreRecord>, offset: nat, reason: StopReason, chain: Bytes)
    ensures Prepend(loaded, offset, ScanResult([], 0, Some(reason), chain)) ==
            ScanResult(loaded, offset, Some(reason), chain)
  {
  }

  lemma PrependMore(loaded: seq<StoreRecord>, offset: nat, r: StoreRecord, size: nat, rest: ScanResult)
    ensures Prepend(loaded, offset, Cons(r, size, rest)) == Prepend(loaded + [r], offset + size, rest)
  {
  }

  lemma ScanNothing(step: ChainStep, chain: Bytes, sequence: nat, max: nat, loaded: seq<StoreRecord>, offset: nat)
    ensures Prepend(loaded, offset, Scan(step, chain, sequence, max, [])) == ScanResult(loaded, offset, None, chain)
  {
  }

  // ---- The file header ----

  method BuildHeader() returns (h: Bytes)
    ensures h == FileHeader()
  {
    hide LE, Crc.Crc32c;
    var a := new U8[24];
    ExtendBytes(a, 0, MAGIC);
    Extend(a, 8, 4, FORMAT_VERSION);
    Extend(a, 12, 4, 0);
    Extend(a, 16, 4, HEADER_BYTES);
    assert a[..0] == [];
    assert a[..20] == HeaderFront();
    var crc := Crc.Compute(a[..20]);
    Extend(a, 20, 4, crc);
    assert a[..] == a[..24];
    h := a[..];
  }

  method CheckHeader(h: Bytes) returns (ok: bool)
    requires |h| == HEADER_BYTES
    ensures ok == HeaderAccepted(h)
  {
    hide Crc.Crc32c, Nat;
    var stored := LoadWord(h, 20, 4);
    var crc := Crc.Compute(h[..20]);
    var format := LoadWord(h, 8, 4);
    var length := LoadWord(h, 16, 4);
    ok := h[..8] == MAGIC && stored == crc && format == FORMAT_VERSION && length == HEADER_BYTES;
  }

  // ---- Sizes ----

  /** A scan never loads more records than its bytes can hold. */
  lemma {:induction false} ScanCount(step: ChainStep, chain: Bytes, sequence: nat, max: nat, b: Bytes)
    ensures 60 * |Scan(step, chain, sequence, max, b).records| <= Scan(step, chain, sequence, max, b).bytes
    decreases |b|
  {
    hide ScanFrame;
    if b != [] {
      var f := ScanFrame(step, chain, sequence, max, b);
      if f.Loaded? {
        ScanFits(step, chain, sequence, max, b);
        ScanCount(step, f.chain, sequence + 1, max, b[f.size..]);
      }
    }
  }

  lemma {:induction false} ScanChain(step: ChainStep, chain: Bytes, sequence: U64, max: nat, b: Bytes)
    requires sequence + |Scan(step, chain, sequence, max, b).records| <= TWO_64 - 1
    ensures var s := Scan(step, chain, sequence, max, b); s.chain == ChainAfter(step, chain, sequence, s.records)
    decreases |b|
  {
    hide ScanFrame, NextChain;
    if b != [] {
      var f := ScanFrame(step, chain, sequence, max, b);
      if f.Loaded? {
        ScanCanonical(step, chain, sequence, max, b);
        var s := Scan(step, chain, sequence, max, b);
        assert s.records[1..] == Scan(step, f.chain, sequence + 1, max, b[f.size..]).records;
        ScanChain(step, f.chain, sequence + 1, max, b[f.size..]);
      }
    }
  }

  // ---- The store ----

  /** What the file system makes of a write: all of it, or an error after some of it. */
  datatype WriteAnswer = Wrote | Torn(bytes: nat)

  /** The first n bytes of a frame, or all of it. */
  function Part(frame: Bytes, n: nat): Bytes { if n < |frame| then frame[..n] else frame }

  /** A write at an offset, over whatever was there. */
  function Overwrite(file: Bytes, at: nat, b: Bytes): (r: Bytes)
    requires at <= |file|
    ensures |r| >= at + |b| && r[..at] == file[..at] && r[..at + |b|] == file[..at] + b
  {
    file[..at] + b + (if at + |b| < |file| then file[at + |b|..] else [])
  }

  /** The records a visitor sees: up to and including the first it does not accept. */
  function Seen(rs: seq<StoreRecord>, visitor: StoreRecord -> bool): (r: seq<StoreRecord>)
    ensures r <= rs
  {
    if rs == [] then [] else if !visitor(rs[0]) then [rs[0]] else [rs[0]] + Seen(rs[1..], visitor)
  }

  /** Where a visit stands: what was seen, and what is left while it goes on. */
  ghost predicate Progress(rs: seq<StoreRecord>, visitor: StoreRecord -> bool, visited: seq<StoreRecord>, going: bool,
                           left: seq<StoreRecord>)
  {
    Seen(rs, visitor) == if going then visited + Seen(left, visitor) else visited
  }

  lemma ProgressStart(rs: seq<StoreRecord>, visitor: StoreRecord -> bool)
    ensures Progress(rs, visitor, [], true, rs)
  {
    assert [] + Seen(rs, visitor) == Seen(rs, visitor);
  }

  lemma ProgressStep(rs: seq<StoreRecord>, visitor: StoreRecord -> bool, visited: seq<StoreRecord>,
                     left: seq<StoreRecord>)
    requires left != [] && Progress(rs, visitor, visited, true, left)
    ensures Progress(rs, visitor, visited + [left[0]], visitor(left[0]), left[1..])
  {
    hide Seen;
    SeenStep(left, visitor);
    var tail := if visitor(left[0]) then Seen(left[1..], visitor) else [];
    assert visited + ([left[0]] + tail) == visited + [left[0]] + tail;
    assert visited + [left[0]] + [] == visited + [left[0]];
  }

  lemma SeenStep(rs: seq<StoreRecord>, visitor: StoreRecord -> bool)
    requires rs != []
    ensures Seen(rs, visitor) == [rs[0]] + if visitor(rs[0]) then Seen(rs[1..], visitor) else []
  {
  }

  lemma ProgressEnd(rs: seq<StoreRecord>, visitor: StoreRecord -> bool, visited: seq<StoreRecord>, going: bool,
                    left: seq<StoreRecord>)
    requires Progress(rs, visitor, visited, going, left) && (going ==> left == [])
    ensures visited == Seen(rs, visitor)
  {
    if going { assert Seen(left, visitor) == [] && visited + [] == visited; }
  }

  /** One turn of the replay loop: the first record of what is left of the log. */
  method NextRecord(rest: Bytes, ghost max: nat, ghost chain: Bytes, ghost sequence: U64, ghost rs: seq<StoreRecord>)
    returns (record: StoreRecord, size: nat)
    requires rest != [] && sequence + |rs| <= TWO_64 - 1 && rest == WriteLog(ShaStep(), chain, sequence, rs)
            && AllStorable(rs, max)
    ensures rs != [] && record == rs[0] && 0 < size <= |rest|
    ensures rest[size..] == WriteLog(ShaStep(), NextChain(ShaStep(), chain, sequence, rs[0]), sequence + 1, rs[1..])
  {
    hide Sha256.Hash, ShaStep, WriteLog, NextChain;
    FirstFrame(max, chain, sequence, rs, rest);
    var frameBytes := LoadWord(rest, 0, 4);
    var kind := LoadWord(rest, 4, 2);
    var payloadBytes := LoadWord(rest, 16, 4);
    record, size := StoreRecord(kind, rest[24..24 + payloadBytes]), frameBytes + 4;
  }

  lemma TailStorable(rs: seq<StoreRecord>, max: nat)
    requires AllStorable(rs, max) && rs != []
    ensures AllStorable(rs[1..], max)
  {
  }

  /** The replay loop over the validated log. */
  method VisitLog(log: Bytes, visitor: StoreRecord -> bool, ghost max: nat, ghost records: seq<StoreRecord>)
    returns (visited: seq<StoreRecord>)
    requires Keeps(ShaConfig(max), records) && log == LogOf(ShaConfig(max), records)
    ensures visited == Seen(records, visitor)
  {
    hide Sha256.Hash, ShaStep, WriteLog, Seen, NextChain, AllStorable, Progress;
    ProgressStart(records, visitor);
    var offset, going := 0, true;
    visited := [];
    ghost var at, left := Sha256.Hash([]), records;
    ghost var sequence: nat := FIRST;
    while offset < |log| && going
      invariant 0 <= offset <= |log| && sequence + |left| <= TWO_64 - 1 && AllStorable(left, max)
      invariant going ==> log[offset..] == WriteLog(ShaStep(), at, sequence, left)
      invariant Progress(records, visitor, visited, going, left)
      decreases |log| - offset
    {
      var record, size := NextRecord(log[offset..], max, at, sequence, left);
      ProgressStep(records, visitor, visited, left);
      TailStorable(left, max);
      assert log[offset..][size..] == log[offset + size..];
      at := NextChain(ShaStep(), at, sequence, record);
      sequence, left := sequence + 1, left[1..];
      visited := visited + [record];
      going := visitor(record);
      offset := offset + size;
    }
    if going {
      FramesTakeSpace(at, sequence, left);
    }
    ProgressEnd(records, visitor, visited, going, left);
  }

  predicate Admitted(rs: seq<StoreRecord>, max: nat)
  {
    forall r :: r in rs ==> ValidKind(r.kind) && |r.payload| <= max
  }

  /** The frames of the new file, up to the first record that is not admitted. */
  method BuildLog(rs: seq<StoreRecord>, max: nat) returns (ok: bool, log: Bytes, digest: Bytes)
    requires Numbered(rs) && forall r :: r in rs && |r.payload| <= max ==> |r.payload| + 56 < TWO_32
    ensures ok == Admitted(rs, max)
    ensures ok ==>
              && Keeps(ShaConfig(max), rs) && log == LogOf(ShaConfig(max), rs)
              && digest == ChainAfter(ShaStep(), Sha256.Hash([]), FIRST, rs)
  {
    hide Sha256.Hash, ShaStep, ChainAfter, WriteLog, Frame, AllStorable;
    digest := Sha256.Compute([]);
    log := [];
    EmptyDigest();
    ShaChains(max);
    EmptyLog(max);
    for i := 0 to |rs|
      invariant Keeps(ShaConfig(max), rs[..i]) && log == LogOf(ShaConfig(max), rs[..i])
      invariant digest == ChainAfter(ShaStep(), Sha256.Hash([]), FIRST, rs[..i])
      invariant forall j :: 0 <= j < i ==> ValidKind(rs[j].kind) && |rs[j].payload| <= max
    {
      var r := rs[i];
      assert r in rs;
      if !ValidKind(r.kind) || |r.payload| > max { return false, [], []; }
      var frame, next := BuildFrame(digest, FIRST + i, r);
      assert rs[..i + 1] == rs[..i] + [r];
      KeepsMore(max, rs[..i], r);
      AppendedLog(max, rs[..i], r);
      log, digest := log + frame[..], next;
    }
    assert rs[..|rs|] == rs;
    ok := true;
  }

  class Store {
    const max: nat
    var file: Bytes
    var writeOffset: nat
    var nextSequence: nat
    var chain: Bytes
    var replayed: bool
    var closed: bool
    ghost var records: seq<StoreRecord>

    /**
      * Up to the write offset the file is an accepted header and exactly the frames of the records;
      * what a failed write left lies behind it.
      */
    ghost predicate Valid()
      reads this
    {
      && Keeps(ShaConfig(max), records)
      && HEADER_BYTES <= writeOffset <= |file| && HeaderAccepted(file[..HEADER_BYTES])
      && file[HEADER_BYTES..writeOffset] == LogOf(ShaConfig(max), records) && nextSequence == FIRST + |records|
      && chain == ChainAfter(ShaStep(), Sha256.Hash([]), FIRST, records)
    }

    /** No failed write has left anything behind. */
    ghost predicate Clean()
      reads this
    {
      writeOffset == |file|
    }

    constructor (max: nat, file: Bytes, chain: Bytes, ghost records: seq<StoreRecord>, count: nat)
      requires Keeps(ShaConfig(max), records) && |records| == count
      requires |file| >= HEADER_BYTES && HeaderAccepted(file[..HEADER_BYTES])
              && file[HEADER_BYTES..] == LogOf(ShaConfig(max), records)
      requires chain == ChainAfter(ShaStep(), Sha256.Hash([]), FIRST, records)
      ensures Valid() && Clean() && this.file == file && this.records == records && this.max == max
      ensures !replayed && !closed
    {
      hide Sha256.Hash, ShaStep, HeaderAccepted, WriteLog, ChainAfter, AllStorable;
      this.max := max;
      this.file := file;
      writeOffset := |file|;
      nextSequence := FIRST + count;
      this.chain := chain;
      replayed := false;
      closed := false;
      this.records := records;
    }

    /**
      * Append(): `answer` is the file system's.  A refused record leaves the store as it was.  A write,
      * failed or not, starts at the write offset and covers no more than its own bytes, so what a
      * failed one left is gone after a successful one only if that is long enough.
      */
    method Append(r: StoreRecord, answer: WriteAnswer) returns (ok: bool)
      requires Valid() && (|r.payload| <= max ==> |r.payload| + 56 < TWO_32) && FIRST + |records| + 1 <= TWO_64 - 1
      modifies this
      ensures Valid() && replayed == old(replayed) && closed == old(closed)
      ensures ok == (!closed && replayed && ValidKind(r.kind) && |r.payload| <= max && answer.Wrote?)
      ensures records == if ok then old(records) + [r] else old(records)
      ensures file[..writeOffset] == if ok then old(file[..writeOffset]) + Frame(ShaStep(), old(chain),
                old(nextSequence), r) else old(file[..writeOffset])
      ensures ok ==> file == Overwrite(old(file), old(writeOffset), Frame(ShaStep(), old(chain), old(nextSequence), r))
      ensures ok ==> (Clean() <==> |old(file)| <= writeOffset)
      ensures answer.Torn? && !closed && replayed && ValidKind(r.kind) && |r.payload| <= max ==>
                file == Overwrite(old(file), old(writeOffset),
                  Part(Frame(ShaStep(), old(chain), old(nextSequence), r), answer.bytes))
      ensures old(Clean()) && ok ==> Clean()
      ensures old(Clean()) && !ok ==>
                old(file) <= file <= old(file) + Frame(ShaStep(), old(chain), old(nextSequence), r)
      ensures closed || !replayed || !ValidKind(r.kind) || |r.payload| > max ==> file == old(file)
    {
      hide Sha256.Hash, ShaStep, HeaderAccepted, WriteLog, ChainAfter, Frame, AllStorable;
      if closed || !replayed || !ValidKind(r.kind) || |r.payload| > max { return false; }
      var frame, next := BuildFrame(chain, nextSequence, r);
      if answer.Torn? {
        FileTorn(file, writeOffset, Part(frame[..], answer.bytes));
        file := Overwrite(file, writeOffset, Part(frame[..], answer.bytes));
        return false;
      }
      ShaChains(max);
      KeepsMore(max, records, r);
      AppendedLog(max, records, r);
      FileGrows(file, writeOffset, frame[..], LogOf(ShaConfig(max), records));
      file := Overwrite(file, writeOffset, frame[..]);
      writeOffset := writeOffset + frame.Length;
      nextSequence := nextSequence + 1;
      chain := next;
      records := records + [r];
      return true;
    }

    /**
      * VisitRecords(): hands over the records in order until the visitor does not accept one, once,
      * and opens the store for appending.
      */
    method VisitRecords(visitor: StoreRecord -> bool) returns (ok: bool, visited: seq<StoreRecord>)
      requires Valid()
      modifies this`replayed
      ensures Valid() && ok == (!closed && !old(replayed)) && replayed == (ok || old(replayed))
      ensures visited == if ok then Seen(records, visitor) else []
    {
      hide Sha256.Hash, ShaStep, HeaderAccepted, ChainAfter, WriteLog, Seen, AllStorable;
      ok := !closed && !replayed;
      if !ok { return false, []; }
      visited := VisitLog(file[HEADER_BYTES..writeOffset], visitor, max, records);
      replayed := true;
    }

    /** Rewrite(): a whole new file, put in place in one step if the file system renames it. */
    method Rewrite(rs: seq<StoreRecord>, renamed: bool) returns (ok: bool)
      requires Valid() && Numbered(rs) && forall r :: r in rs && |r.payload| <= max ==> |r.payload| + 56 < TWO_32
      modifies this
      ensures Valid() && replayed == old(replayed) && closed == old(closed)
      ensures ok == (!closed && replayed && Admitted(rs, max) && renamed)
      ensures ok ==> records == rs && file == FileOf(ShaConfig(max), rs) && Clean()
      ensures !ok ==> records == old(records) && file == old(file) && writeOffset == old(writeOffset)
    {
      hide Sha256.Hash, ShaStep, HeaderAccepted, ChainAfter, WriteLog, FileHeader, Frame;
      if closed || !replayed { return false; }
      var header := BuildHeader();
      var log, digest;
      ok, log, digest := BuildLog(rs, max);
      if !ok || !renamed { return false; }
      WrittenHeaderAccepted();
      HeaderSplit(log);
      file := header + log;
      writeOffset := |file|;
      nextSequence := FIRST + |rs|;
      chain := digest;
      records := rs;
      return true;
    }
  }

  lemma EmptyDigest()
    ensures Sha256.Joined([]) == []
  {
  }

  lemma EmptyLog(max: nat)
    ensures Keeps(ShaConfig(max), []) && LogOf(ShaConfig(max), []) == []
            && ChainAfter(ShaStep(), Sha256.Hash([]), FIRST, []) == Sha256.Hash([])
  {
    hide Sha256.Hash;
    ShaChains(max);
  }

  /** The first frame of a written log, as the replay loop reads it. */
  lemma FirstFrame(max: nat, chain: Bytes, sequence: U64, rs: seq<StoreRecord>, b: Bytes)
    requires b != [] && sequence + |rs| <= TWO_64 - 1 && b == WriteLog(ShaStep(), chain, sequence, rs)
            && AllStorable(rs, max)
    ensures rs != [] && |b| >= |rs[0].payload| + 60
    ensures Load(b, 0, 4) + 4 == |rs[0].payload| + 60 && Load(b, 4, 2) == rs[0].kind
            && Load(b, 16, 4) == |rs[0].payload|
    ensures b[24..24 + |rs[0].payload|] == rs[0].payload
    ensures b[|rs[0].payload| + 60..] == WriteLog(ShaStep(), NextChain(ShaStep(), chain, sequence, rs[0]), sequence +
            1, rs[1..])
  {
    hide Frame, Crc.Crc32c, LE, Nat, Sha256.Hash, ShaStep;
    ShaChains(max);
    var more := WriteLog(ShaStep(), NextChain(ShaStep(), chain, sequence, rs[0]), sequence + 1, rs[1..]);
    FrameFields(ShaStep(), chain, sequence, rs[0], more);
    FrameNumbers(ShaStep(), chain, sequence, rs[0], b);
  }

  lemma FramesTakeSpace(chain: Bytes, sequence: U64, rs: seq<StoreRecord>)
    requires sequence + |rs| <= TWO_64 - 1
    ensures rs != [] ==> |WriteLog(ShaStep(), chain, sequence, rs)| >= 60
  {
    hide Crc.Crc32c, LE, Sha256.Hash, ShaStep;
    if rs != [] {
      ShaChains(0);
      FrameSize(ShaStep(), chain, sequence, rs[0]);
    }
  }

  lemma KeepsMore(max: nat, rs: seq<StoreRecord>, r: StoreRecord)
    requires Keeps(ShaConfig(max), rs) && Storable(r, max) && Numbered(rs + [r])
    ensures Keeps(ShaConfig(max), rs + [r])
  {
    hide Sha256.Hash;
  }

  lemma AppendedLog(max: nat, rs: seq<StoreRecord>, r: StoreRecord)
    requires Keeps(ShaConfig(max), rs) && Numbered(rs + [r])
    ensures var chain := ChainAfter(ShaStep(), Sha256.Hash([]), FIRST, rs);
            && LogOf(ShaConfig(max), rs + [r]) == LogOf(ShaConfig(max), rs) + Frame(ShaStep(), chain, FIRST + |rs|, r)
            && ChainAfter(ShaStep(), Sha256.Hash([]), FIRST, rs + [r]) == NextChain(ShaStep(), chain, FIRST + |rs|, r)
  {
    hide Sha256.Hash, ShaStep, WriteLog, ChainAfter, Frame;
    LogAppend(ShaStep(), Sha256.Hash([]), FIRST, rs, r);
  }

  lemma FileGrows(file: Bytes, at: nat, frame: Bytes, log: Bytes)
    requires HEADER_BYTES <= at <= |file| && file[HEADER_BYTES..at] == log
    ensures var r := Overwrite(file, at, frame);
            && r[..HEADER_BYTES] == file[..HEADER_BYTES] && r[HEADER_BYTES..at + |frame|] == log + frame
            && (at == |file| ==> |r| == at + |frame|)
  {
    var r := Overwrite(file, at, frame);
    assert r[HEADER_BYTES..at + |frame|] == r[..at + |frame|][HEADER_BYTES..];
    assert r[..HEADER_BYTES] == r[..at][..HEADER_BYTES];
  }

  lemma FileTorn(file: Bytes, at: nat, part: Bytes)
    requires HEADER_BYTES <= at <= |file|
    ensures var r := Overwrite(file, at, part);
            && r[..HEADER_BYTES] == file[..HEADER_BYTES] && r[HEADER_BYTES..at] == file[HEADER_BYTES..at]
            && (at == |file| ==> r == file + part)
  {
    var r := Overwrite(file, at, part);
    assert r[HEADER_BYTES..at] == r[..at][HEADER_BYTES..];
    assert r[..HEADER_BYTES] == r[..at][..HEADER_BYTES];
    assert file[..at] == file[..HEADER_BYTES] + file[HEADER_BYTES..at];
  }

  // ---- Opening ----

  /** What the scan accepted is a log of its records. */
  lemma OpenedLog(max: nat, b: Bytes)
    requires |b| < TWO_64
    ensures var s := Scan(ShaStep(), Sha256.Hash([]), FIRST, max, b);
            && Keeps(ShaConfig(max), s.records) && s.bytes <= |b|
            && b[..s.bytes] == LogOf(ShaConfig(max), s.records)
            && s.chain == ChainAfter(ShaStep(), Sha256.Hash([]), FIRST, s.records)
  {
    hide Scan, Sha256.Hash, ShaStep, WriteLog, ChainAfter;
    var s := Scan(ShaStep(), Sha256.Hash([]), FIRST, max, b);
    ShaChains(max);
    ScanCount(ShaStep(), Sha256.Hash([]), FIRST, max, b);
    ScanChain(ShaStep(), Sha256.Hash([]), FIRST, max, b);
    LogOfScan(ShaStep(), Sha256.Hash([]), FIRST, max, b);
  }

  lemma KeptParts(file: Bytes, n: nat)
    requires HEADER_BYTES + n <= |file|
    ensures file[..HEADER_BYTES + n][..HEADER_BYTES] == file[..HEADER_BYTES]
    ensures file[..HEADER_BYTES + n][HEADER_BYTES..] == file[HEADER_BYTES..][..n]
  {
  }

  /** Store::Open() on a file of at most 2^64 bytes. */
  method OpenStore(file: Bytes, strict: bool, max: nat) returns (result: OpenResult, store: Store?)
    requires |file| < TWO_64
    ensures result == OpenFile(ShaConfig(max), strict, file)
    ensures result.Refused? <==> store == null
    ensures store != null ==>
              fresh(store) && store.Valid() && store.Clean() && !store.replayed && !store.closed && store.max == max
              && store.file == FileAfterOpen(ShaConfig(max), strict, file)
    ensures result.Created? ==> store.records == []
    ensures result.Opened? ==> store.records == result.records
  {
    hide Scan, Sha256.Hash, ShaStep, WriteLog, ChainAfter, HeaderAccepted, FileHeader, AllStorable;
    var seed := Sha256.Compute([]);
    EmptyDigest();
    EmptyLog(max);
    if file == [] {
      var header := BuildHeader();
      WrittenHeaderAccepted();
      HeaderSplit([]);
      assert header + [] == header;
      store := new Store(max, header, seed, [], 0);
      return Created, store;
    }
    if |file| < HEADER_BYTES { return Refused, null; }
    var accepted := CheckHeader(file[..HEADER_BYTES]);
    if !accepted { return Refused, null; }
    var s := ScanLog(seed, max, file[HEADER_BYTES..]);
    OpenedLog(max, file[HEADER_BYTES..]);
    if s.stop.Some? && s.stop.value != TruncatedTail && strict { return Refused, null; }
    var kept := file[..HEADER_BYTES + s.bytes];
    KeptParts(file, s.bytes);
    store := new Store(max, kept, s.chain, s.records, |s.records|);
    result := Opened(s.records, HEADER_BYTES + s.bytes, s.stop);
  }
}
