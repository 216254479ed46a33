// Frames between a client and the service: a checksummed header and a checksummed payload.

module Ipc {
  import opened Words
  import opened LittleEndian
  import opened Crc
  import opened State
  import opened Log

  const FRAME_MAGIC: U32 := 0x3142_4143
  const PROTOCOL_VERSION: U16 := 1
  const FRAME_HEADER_BYTES := 28

  datatype Message = Message(kind: U16, requestId: U64, payload: Bytes)

  /** known_type() */
  predicate KnownType(kind: U16)
  {
    1 <= kind <= 2 || 10 <= kind <= 13 || 20 <= kind <= 23 || 30 <= kind <= 39 || 50 <= kind <= 55 || 60 <= kind <= 61
      || kind == 70
  }

  // ---- Print ----

  /** The header without its own checksum. */
  function Front(m: Message): (r: Bytes)
    ensures |r| == 24
  {
    LE(FRAME_MAGIC, 4) + LE(PROTOCOL_VERSION, 2) + LE(m.kind, 2) + LE(|m.payload|, 4) + LE(m.requestId, 8) +
      LE(Crc32c(m.payload), 4)
  }

  function MessageHeader(m: Message): (r: Bytes)
    ensures |r| == FRAME_HEADER_BYTES
  {
    Front(m) + LE(Crc32c(Front(m)), 4)
  }

  function MessageBytes(m: Message): (r: Bytes)
    ensures |r| == FRAME_HEADER_BYTES + |m.payload|
  {
    MessageHeader(m) + m.payload
  }

  // ---- Parse ----

  /** decode_frame_header() */
  predicate HeaderOk(b: Bytes, max: nat)
    requires |b| >= FRAME_HEADER_BYTES
  {
    && Load(b, 0, 4) == FRAME_MAGIC && Load(b, 24, 4) == Crc32c(b[0..24])
    && Load(b, 4, 2) == PROTOCOL_VERSION && KnownType(KindIn(b)) && Load(b, 8, 4) <= max
  }

  function KindIn(b: Bytes): U16
    requires |b| >= FRAME_HEADER_BYTES
  {
    Pow256Values();
    Load(b, 6, 2)
  }

  /** decode_frame() */
  function DecodeMessage(b: Bytes, max: nat): Option<Message>
  {
    Pow256Values();
    if |b| < FRAME_HEADER_BYTES || !HeaderOk(b, max) then None
    else if |b| != FRAME_HEADER_BYTES + Load(b, 8, 4) then None
    else if Crc32c(b[28..]) != Load(b, 20, 4) then None
    else Some(Message(KindIn(b), Load(b, 12, 8), b[28..]))
  }

  // ---- Round trips ----

  ghost predicate FrontFields(b: Bytes, m: Message)
    requires |b| >= 24
  {
    && b[0..4] == LE(FRAME_MAGIC, 4) && b[4..6] == LE(PROTOCOL_VERSION, 2) && b[6..8] == LE(m.kind, 2)
    && b[8..12] == LE(|m.payload|, 4) && b[12..20] == LE(m.requestId, 8) && b[20..24] == LE(Crc32c(m.payload), 4)
  }

  lemma FrontParts(m: Message)
    ensures FrontFields(Front(m), m)
  {
    hide LE, Crc32c;
    var a, b, c := LE(FRAME_MAGIC, 4), LE(PROTOCOL_VERSION, 2), LE(m.kind, 2);
    var d, e, f := LE(|m.payload|, 4), LE(m.requestId, 8), LE(Crc32c(m.payload), 4);
    SliceRight(a, b);
    SliceRight(a + b, c);
    SliceRight(a + b + c, d);
    SliceRight(a + b + c + d, e);
    SliceRight(a + b + c + d + e, f);
    Slices(a + b, c, 4, 6, 0, 4);
    Slices(a + b + c, d, 4, 6, 0, 4);
    SliceLeft(a + b + c, d, 6, 8);
    Slices(a + b + c + d, e, 4, 6, 0, 4);
    Slices(a + b + c + d, e, 6, 8, 8, 12);
    Slices(a + b + c + d + e, f, 4, 6, 0, 4);
    Slices(a + b + c + d + e, f, 6, 8, 8, 12);
    SliceLeft(a + b + c + d + e, f, 12, 20);
  }

  lemma Slices(x: Bytes, y: Bytes, i: nat, j: nat, k: nat, m: nat)
    requires i <= j <= |x| && k <= m <= |x|
    ensures (x + y)[i..j] == x[i..j] && (x + y)[k..m] == x[k..m]
  {
    SliceLeft(x, y, i, j);
    SliceLeft(x, y, k, m);
  }

  lemma FieldsStay(front: Bytes, rest: Bytes, m: Message)
    requires |front| >= 24 && FrontFields(front, m)
    ensures FrontFields(front + rest, m)
  {
    hide LE, Crc32c;
    Slices(front, rest, 0, 4, 4, 6);
    Slices(front, rest, 6, 8, 8, 12);
    Slices(front, rest, 12, 20, 20, 24);
  }

  lemma MessageParts(m: Message)
    ensures var b := MessageBytes(m);
            FrontFields(b, m) && b[0..24] == Front(m) && b[24..28] == LE(Crc32c(Front(m)), 4)
              && b[0..28] == MessageHeader(m) && b[28..] == m.payload
  {
    hide LE, Crc32c, Front;
    var front, k := Front(m), LE(Crc32c(Front(m)), 4);
    FrontParts(m);
    SliceRight(front, k);
    SliceRight(MessageHeader(m), m.payload);
    FieldsStay(front, k, m);
    FieldsStay(MessageHeader(m), m.payload, m);
    Slices(front + k, m.payload, 0, 24, 24, 28);
  }

  /** A frame is read back exactly when its type is known and its payload within the bound. */
  lemma MessageRoundTrip(m: Message, max: nat)
    requires |m.payload| < TWO_32
    ensures DecodeMessage(MessageBytes(m), max) == if KnownType(m.kind) && |m.payload| <= max then Some(m) else None
  {
    hide LE, Crc32c, Front, MessageHeader, Nat, KnownType;
    Pow256Values();
    MessageParts(m);
    NatOfLE(FRAME_MAGIC, 4);
    NatOfLE(PROTOCOL_VERSION, 2);
    NatOfLE(m.kind, 2);
    NatOfLE(|m.payload|, 4);
    NatOfLE(m.requestId, 8);
    NatOfLE(Crc32c(m.payload), 4);
    NatOfLE(Crc32c(Front(m)), 4);
  }

  /** Every accepted buffer is the frame that would be sent for it. */
  lemma MessageCanonical(b: Bytes, max: nat)
    requires DecodeMessage(b, max).Some?
    ensures var m := DecodeMessage(b, max).value; MessageBytes(m) == b && KnownType(m.kind) && |m.payload| <= max
  {
    hide LE, Crc32c, Nat, KnownType;
    Pow256Values();
    var m := DecodeMessage(b, max).value;
    LoadedLE(b, 0, 4);
    LoadedLE(b, 4, 2);
    LoadedLE(b, 6, 2);
    LoadedLE(b, 8, 4);
    LoadedLE(b, 12, 8);
    LoadedLE(b, 20, 4);
    LoadedLE(b, 24, 4);
    assert b[0..24] == b[0..4] + b[4..6] + b[6..8] + b[8..12] + b[12..20] + b[20..24];
    assert b[0..24] == Front(m);
    assert b == b[0..24] + b[24..28] + b[28..];
  }

  /** Every one-byte change of a frame is rejected. */
  lemma DamagedMessage(m: Message, b: Bytes, i: nat, max: nat)
    requires |m.payload| < TWO_32 && DifferAt(MessageBytes(m), b, i)
    ensures DecodeMessage(b, max) == None
  {
    hide LE, Crc32c, Front, MessageHeader, Nat, KnownType, DecodeMessage, DifferAt;
    if DecodeMessage(b, max).Some? {
      MessageCanonical(b, max);
      var m' := DecodeMessage(b, max).value;
      NotAMessage(m, m', i);
      assert false;
    }
  }

  lemma NotAMessage(m: Message, m': Message, i: nat)
    requires |m.payload| < TWO_32
    ensures !DifferAt(MessageBytes(m), MessageBytes(m'), i)
  {
    hide LE, Crc32c, Front, MessageHeader, Nat;
    var a, b := MessageBytes(m), MessageBytes(m');
    if DifferAt(a, b, i) {
      MessageParts(m);
      MessageParts(m');
      if i < 28 {
        DifferWithin(a, b, i, 28);
        assert a[..28] == a[0..28] && b[..28] == b[0..28];
        HeadersDiffer(m, m', i);
      } else {
        DifferElsewhere(a, b, i, 20, 24);
        PayloadsDiffer(m, m', i - 28);
      }
      assert false;
    }
  }

  lemma HeadersDiffer(m: Message, m': Message, i: nat)
    ensures !DifferAt(MessageHeader(m), MessageHeader(m'), i)
  {
    hide LE, Crc32c, Front;
    var a, b := MessageHeader(m), MessageHeader(m');
    var p, q := LE(Crc32c(Front(m)), 4), LE(Crc32c(Front(m')), 4);
    SliceRight(Front(m), p);
    SliceRight(Front(m'), q);
    if DifferAt(a, b, i) {
      ChecksumBroken(a, b, i, 24);
      assert false;
    }
  }

  lemma PayloadsDiffer(m: Message, m': Message, i: nat)
    requires LE(Crc32c(m.payload), 4) == LE(Crc32c(m'.payload), 4)
    ensures !DifferAt(MessageBytes(m), MessageBytes(m'), i + 28)
  {
    hide LE, Crc32c, MessageHeader;
    var a, b := MessageBytes(m), MessageBytes(m');
    if DifferAt(a, b, i + 28) {
      SliceRight(MessageHeader(m), m.payload);
      SliceRight(MessageHeader(m'), m'.payload);
      TailDiffers(a, b, i, 28);
      ChecksumsDiffer(m.payload, m'.payload, i);
      assert false;
    }
  }

  lemma TailDiffers(a: Bytes, b: Bytes, i: nat, n: nat)
    requires n <= |a| && DifferAt(a, b, i + n)
    ensures DifferAt(a[n..], b[n..], i)
  {
    assert a[n..][i] == a[i + n] && b[n..][i] == b[i + n];
    DifferElsewhere(a, b, i + n, n, i + n);
    assert a[n..][..i] == a[n..i + n] && b[n..][..i] == b[n..i + n];
    assert a[n..][i + 1..] == a[i + n + 1..] && b[n..][i + 1..] == b[i + n + 1..];
  }
}

// The frame codec as the service runs it: a buffer filled field by field, and a header checked
// before the payload is looked at.
module IpcFrames {
  import opened Words
  import opened LittleEndian
  import opened State
  import opened ByteArrays
  import opened Log
  import opened Ipc
  import Crc

  /** encode_frame(): nothing when the payload is over the bound. */
  method EncodeFrame(m: Message, max: nat) returns (r: Bytes)
    ensures r == if |m.payload| <= max then MessageBytes(m) else []
  {
    hide LE, Crc.Crc32c;
    if |m.payload| > max { return []; }
    var a := new U8[FRAME_HEADER_BYTES + |m.payload|];
    FillFront(a, m);
    var headerCrc := Crc.Compute(a[..24]);
    StoreWord(a, 24, 4, headerCrc);
    assert a[..28] == a[..24] + a[24..28];
    StoreBytes(a, 28, m.payload);
    assert a[..] == a[..28] + a[28..28 + |m.payload|];
    r := a[..];
  }

  method FillFront(a: array<U8>, m: Message)
    requires a.Length >= FRAME_HEADER_BYTES
    modifies a
    ensures a[..24] == Front(m)
  {
    hide LE, Crc.Crc32c;
    var payloadCrc := Crc.Compute(m.payload);
    Extend(a, 0, 4, FRAME_MAGIC);
    assert a[..0] == [];
    Extend(a, 4, 2, PROTOCOL_VERSION);
    Extend(a, 6, 2, m.kind);
    Extend(a, 8, 4, |m.payload|);
    Extend(a, 12, 8, m.requestId);
    Extend(a, 20, 4, payloadCrc);
  }

  /** decode_frame() */
  method DecodeFrame(b: Bytes, max: nat) returns (r: Option<Message>)
    ensures r == DecodeMessage(b, max)
  {
    hide Crc.Crc32c, Nat, KnownType;
    Pow256Values();
    if |b| < FRAME_HEADER_BYTES { return None; }
    var magic := LoadWord(b, 0, 4);
    var stored := LoadWord(b, 24, 4);
    var headerCrc := Crc.Compute(b[0..24]);
    var version := LoadWord(b, 4, 2);
    var kind := LoadWord(b, 6, 2);
    var payloadBytes := LoadWord(b, 8, 4);
    if magic != FRAME_MAGIC || stored != headerCrc || version != PROTOCOL_VERSION || !KnownType(kind)
      || payloadBytes > max {
      return None;
    }
    if |b| != FRAME_HEADER_BYTES + payloadBytes { return None; }
    var requestId := LoadWord(b, 12, 8);
    var payloadCrc := LoadWord(b, 20, 4);
    var content := Crc.Compute(b[28..]);
    if content != payloadCrc { return None; }
    r := Some(Message(kind, requestId, b[28..]));
  }
}
