// What a failed append leaves behind the log, and when the store opens again: a write that fails
// does not move the end of the log, the next append starts there, and a shorter one does not cover
// all that was written.

module Leftovers {
  import opened Words
  import opened LittleEndian
  import opened Crc
  import opened State
  import opened Log
  import opened StoreFile
  import opened StoreObject
  import Sha256

  /** Open on a log with something behind it: the scan goes on into it. */
  lemma OpenBehind(c: Config, strict: bool, head: Bytes, rs: seq<StoreRecord>, rest: Bytes)
    requires Keeps(c, rs) && |head| == HEADER_BYTES && HeaderAccepted(head)
    ensures var more := Scan(c.step, ChainAfter(c.step, c.seed, FIRST, rs), FIRST + |rs|, c.max, rest);
            OpenFile(c, strict, head + LogOf(c, rs) + rest) ==
            if more.stop.Some? && more.stop.value != TruncatedTail && strict then Refused
            else Opened(rs + more.records, |head + LogOf(c, rs)| + more.bytes, more.stop)
  {
    hide Scan, WriteLog, ChainAfter, HeaderAccepted, AllStorable;
    ScanThrough(c.step, c.seed, FIRST, c.max, rs, rest);
    assert head + LogOf(c, rs) + rest == head + (LogOf(c, rs) + rest);
    SliceRight(head, LogOf(c, rs) + rest);
  }

  /** Bytes the scan takes for a frame that is not all there. */
  predicate Unfinished(b: Bytes)
  {
    |b| < 24 || Load(b, 0, 4) + 4 > |b|
  }

  lemma StopsAtOnce(step: ChainStep, chain: Bytes, sequence: nat, max: nat, b: Bytes)
    ensures ScanFrame(step, chain, sequence, max, b) == Stop(TruncatedTail) <==> Unfinished(b)
  {
    hide CheckFrame;
    Pow256Values();
    if !Unfinished(b) && Load(b, 16, 4) + 60 <= |b| { LaterStop(step, chain, sequence, max, b, Load(b, 16, 4)); }
  }

  lemma LaterStop(step: ChainStep, chain: Bytes, sequence: nat, max: nat, b: Bytes, payloadBytes: nat)
    requires payloadBytes + 60 <= |b|
    ensures CheckFrame(step, chain, sequence, max, b, payloadBytes) != Stop(TruncatedTail)
  {
  }

  /**
    * A log with something behind it opens strictly if and only if the scan of the rest ends with it
    * or runs into an unfinished frame, and with exactly the records of the log if and only if the
    * rest is empty or is an unfinished frame from its first byte on.
    */
  lemma ReopensExactly(c: Config, head: Bytes, rs: seq<StoreRecord>, rest: Bytes)
    requires Keeps(c, rs) && |head| == HEADER_BYTES && HeaderAccepted(head)
    ensures var open := OpenFile(c, true, head + LogOf(c, rs) + rest);
            var stop := Scan(c.step, ChainAfter(c.step, c.seed, FIRST, rs), FIRST + |rs|, c.max, rest).stop;
            && (open.Opened? <==> stop == None || stop == Some(TruncatedTail))
            && (open.Opened? && open.records == rs <==> rest == [] || Unfinished(rest))
  {
    hide ScanFrame, WriteLog, ChainAfter, HeaderAccepted, OpenFile, AllStorable, Unfinished;
    var chain := ChainAfter(c.step, c.seed, FIRST, rs);
    OpenBehind(c, true, head, rs, rest);
    StopsAtOnce(c.step, chain, FIRST + |rs|, c.max, rest);
    var more := Scan(c.step, chain, FIRST + |rs|, c.max, rest);
    assert rs + more.records == rs <==> more.records == [] by {
      if more.records != [] { assert |rs + more.records| > |rs|; }
    }
  }

  /** The same of a store in whatever state: what lies behind its write offset decides. */
  lemma StoreReopens(store: Store)
    requires store.Valid()
    ensures var open := OpenFile(ShaConfig(store.max), true, store.file);
            var rest := store.file[store.writeOffset..];
            var stop := Scan(ShaStep(), store.chain, store.nextSequence, store.max, rest).stop;
            && (open.Opened? <==> stop == None || stop == Some(TruncatedTail))
            && (open.Opened? && open.records == store.records <==> rest == [] || Unfinished(rest))
            && (store.Clean() ==> open.Opened? && open.stop == None)
  {
    hide ShaStep, Sha256.Hash, WriteLog, ChainAfter, HeaderAccepted, OpenFile, Unfinished, Scan, AllStorable;
    var c, head := ShaConfig(store.max), store.file[..HEADER_BYTES];
    var rest := store.file[store.writeOffset..];
    assert store.file == head + LogOf(c, store.records) + rest by {
      assert store.file == store.file[..store.writeOffset] + rest;
      assert store.file[..store.writeOffset] == head + store.file[HEADER_BYTES..store.writeOffset];
    }
    ReopensExactly(c, head, store.records, rest);
    if store.Clean() { OpenBehind(c, true, head, store.records, rest); NothingLeft(c, store.records); }
  }

  lemma NothingLeft(c: Config, rs: seq<StoreRecord>)
    requires Numbered(rs)
    ensures Scan(c.step, ChainAfter(c.step, c.seed, FIRST, rs), FIRST + |rs|, c.max, []).stop == None
  {
  }

  // ---- A failed append, and then one that succeeds ----

  /** What the second of two writes at the end of a file leaves of the first. */
  lemma SecondWrite(file: Bytes, first: Bytes, second: Bytes)
    ensures Overwrite(Overwrite(file, |file|, first), |file|, second) ==
            file + second + (if |second| < |first| then first[|second|..] else [])
  {
  }

  /** The file after an append of r failed with k bytes written, and one of r' succeeded. */
  function TornThenWritten(c: Config, rs: seq<StoreRecord>, r: StoreRecord, k: nat, r': StoreRecord): Bytes
    requires Numbered(rs + [r'])
  {
    var file, chain := FileOf(c, rs), ChainAfter(c.step, c.seed, FIRST, rs);
    Overwrite(Overwrite(file, |file|, Part(Frame(c.step, chain, FIRST + |rs|, r), k)), |file|,
      Frame(c.step, chain, FIRST + |rs|, r'))
  }

  /** What then lies behind the log. */
  function Behind(c: Config, rs: seq<StoreRecord>, r: StoreRecord, k: nat, r': StoreRecord): Bytes
    requires Numbered(rs + [r'])
  {
    var part := Part(Frame(c.step, ChainAfter(c.step, c.seed, FIRST, rs), FIRST + |rs|, r), k);
    if |r'.payload| + 60 < |part| then part[|r'.payload| + 60..] else []
  }

  lemma FileBehind(c: Config, rs: seq<StoreRecord>, r: StoreRecord, k: nat, r': StoreRecord)
    requires Keeps(c, rs + [r'])
    ensures TornThenWritten(c, rs, r, k, r') == FileHeader() + LogOf(c, rs + [r']) + Behind(c, rs, r, k, r')
  {
    hide Frame, WriteLog, ChainAfter, FileHeader, AllStorable, Overwrite, NextChain;
    var file, chain := FileOf(c, rs), ChainAfter(c.step, c.seed, FIRST, rs);
    AppendedFile(c, rs, r');
    FrameSize(c.step, chain, FIRST + |rs|, r');
    SecondWrite(file, Part(Frame(c.step, chain, FIRST + |rs|, r), k), Frame(c.step, chain, FIRST + |rs|, r'));
  }

  /**
    * An append that fails and one that succeeds: the store opens strictly with exactly the records
    * acknowledged if and only if the second frame covers what the first left, or the bytes it does
    * not cover are an unfinished frame.
    */
  lemma RetryReopensExactly(c: Config, rs: seq<StoreRecord>, r: StoreRecord, k: nat, r': StoreRecord)
    requires Keeps(c, rs + [r'])
    ensures var open := OpenFile(c, true, TornThenWritten(c, rs, r, k, r'));
            var left := Behind(c, rs, r, k, r');
            open.Opened? && open.records == rs + [r'] <==> left == [] || Unfinished(left)
  {
    hide TornThenWritten, Behind, OpenFile, WriteLog, FileHeader, HeaderAccepted, ChainAfter, Scan, AllStorable,
         Unfinished;
    FileBehind(c, rs, r, k, r');
    WrittenHeaderAccepted();
    ReopensExactly(c, FileHeader(), rs + [r'], Behind(c, rs, r, k, r'));
  }

  function Zeros(n: nat): (r: Bytes)
    ensures |r| == n
  {
    seq(n, _ => 0)
  }

  lemma ZerosCorrupt(step: ChainStep, chain: Bytes, sequence: nat, max: nat, n: nat)
    requires n >= 24
    ensures ScanFrame(step, chain, sequence, max, Zeros(n)) == Stop(CorruptRecord)
  {
    hide CheckFrame;
    assert Zeros(n)[0..4] == [0, 0, 0, 0];
    assert [0, 0, 0, 0][1..] == [0, 0, 0] && [0, 0, 0][1..] == [0, 0] && [0, 0][1..] == [0];
    assert Nat([0]) == 0 && Nat([0, 0]) == 0 && Nat([0, 0, 0]) == 0;
  }

  const SHORT := StoreRecord(2, [])

  lemma ZerosBehind(c: Config, rs: seq<StoreRecord>, m: nat)
    requires Keeps(c, rs + [SHORT]) && m >= 60 && m + 56 < TWO_32
    ensures Behind(c, rs, StoreRecord(2, Zeros(m)), m + 24, SHORT) == Zeros(m - 36)
  {
    hide Frame, ChainAfter, AllStorable, LE, Nat, Crc32c;
    var r, chain := StoreRecord(2, Zeros(m)), ChainAfter(c.step, c.seed, FIRST, rs);
    var frame := Frame(c.step, chain, FIRST + |rs|, r);
    FrameSize(c.step, chain, FIRST + |rs|, r);
    FrameFields(c.step, chain, FIRST + |rs|, r, []);
    assert frame + [] == frame;
    assert frame[24..24 + m] == Zeros(m);
    assert frame[..m + 24][60..] == frame[24..24 + m][36..];
  }

  /**
    * From any store: the append of a long record of zeros fails before its digest is written, a
    * short one succeeds, and the strict policy refuses the store; the other loads what was
    * acknowledged.
    */
  lemma RetryRefused(c: Config, rs: seq<StoreRecord>, m: nat)
    requires Keeps(c, rs + [SHORT]) && m >= 60 && m + 56 < TWO_32
    ensures var file := TornThenWritten(c, rs, StoreRecord(2, Zeros(m)), m + 24, SHORT);
            && OpenFile(c, true, file) == Refused
            && OpenFile(c, false, file) == Opened(rs + [SHORT], |FileOf(c, rs + [SHORT])|, Some(CorruptRecord))
  {
    hide TornThenWritten, Behind, OpenFile, WriteLog, FileHeader, HeaderAccepted, ChainAfter, AllStorable, ScanFrame,
         Zeros;
    var c' := ChainAfter(c.step, c.seed, FIRST, rs + [SHORT]);
    ZerosBehind(c, rs, m);
    FileBehind(c, rs, StoreRecord(2, Zeros(m)), m + 24, SHORT);
    WrittenHeaderAccepted();
    ZerosCorrupt(c.step, c', FIRST + |rs + [SHORT]|, c.max, m - 36);
    OpenBehind(c, true, FileHeader(), rs + [SHORT], Zeros(m - 36));
    OpenBehind(c, false, FileHeader(), rs + [SHORT], Zeros(m - 36));
    assert rs + [SHORT] + [] == rs + [SHORT];
  }

  // ---- A frame whose length is cut down to nothing ----

  /** The smallest payload whose frame length does not fit 32 bits. */
  const TOO_LONG: nat := TWO_32 - 56

  lemma WrappedLength(step: ChainStep, chain: Bytes, sequence: U64, r: StoreRecord)
    requires Chains(step) && |r.payload| == TOO_LONG
    ensures |Frame(step, chain, sequence, r)| >= 24 && Frame(step, chain, sequence, r)[0..4] == LE(TWO_32, 4)
  {
    hide Crc32c, HeadFromKind, LE;
    FrameSize(step, chain, sequence, r);
    assert Covered(step, chain, sequence, r)[0..4] == LE(TWO_32, 4);
    SliceLeft(Covered(step, chain, sequence, r), LE(Crc32c(Covered(step, chain, sequence, r)), 4), 0, 4);
  }

  lemma WrappedZero()
    ensures Nat(LE(TWO_32, 4)) == 0
  {
    assert LE(0x100, 1) == [0] && LE(0x1_0000, 2) == [0, 0] && LE(0x100_0000, 3) == [0, 0, 0];
    assert [0, 0, 0, 0][1..] == [0, 0, 0] && [0, 0, 0][1..] == [0, 0] && [0, 0][1..] == [0];
    assert Nat([0]) == 0 && Nat([0, 0]) == 0 && Nat([0, 0, 0]) == 0;
  }

  /** Where the limit on records admits it, Append takes such a record and the strict policy refuses the store. */
  lemma LongFrameRefused(c: Config, rs: seq<StoreRecord>, r: StoreRecord)
    requires Keeps(c, rs) && FIRST + |rs| < TWO_64 - 1 && |r.payload| == TOO_LONG <= c.max && ValidKind(r.kind)
    ensures var frame := Frame(c.step, ChainAfter(c.step, c.seed, FIRST, rs), FIRST + |rs|, r);
            OpenFile(c, true, FileOf(c, rs) + frame) == Refused
  {
    hide OpenFile, WriteLog, FileHeader, HeaderAccepted, ChainAfter, AllStorable, Frame, CheckFrame, Nat, LE;
    var chain := ChainAfter(c.step, c.seed, FIRST, rs);
    var frame := Frame(c.step, chain, FIRST + |rs|, r);
    WrappedLength(c.step, chain, FIRST + |rs|, r);
    WrappedZero();
    assert ScanFrame(c.step, chain, FIRST + |rs|, c.max, frame) == Stop(CorruptRecord);
    WrittenHeaderAccepted();
    OpenBehind(c, true, FileHeader(), rs, frame);
  }
}
