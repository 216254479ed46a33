// The encoder and decoder buffers: a growing buffer with a latched failure and a ceiling, and a
// cursor that only moves over bytes that are there.

module Buffers {
  import opened Words
  import opened LittleEndian
  import opened Evidence
  import opened State
  import opened ByteArrays
  import opened Log
  import opened Codec
  import opened Wire
  import opened Records

  /**
    * The bytes were appended, or the encoder has failed and holds nothing: it had failed before, the
    * value was not allowed, or there was no room.
    */
  predicate Wrote(before: Bytes, hadFailed: bool, after: Bytes, failed: bool, b: Bytes, allowed: bool)
  {
    && failed == (hadFailed || !allowed || |before| + |b| > ENCODER_CEILING)
    && after == if failed then [] else before + b
  }

  /** One write after another is one write. */
  lemma WroteBoth(s0: Bytes, f0: bool, s1: Bytes, f1: bool, s2: Bytes, f2: bool, a: Bytes, b: Bytes, x: bool, y: bool)
    requires Wrote(s0, f0, s1, f1, a, x) && Wrote(s1, f1, s2, f2, b, y)
    ensures Wrote(s0, f0, s2, f2, a + b, x && y)
  {
  }

  class Encoder {
    var buffer: Bytes
    var failed: bool

    ghost predicate Valid()
      reads this
    {
      |buffer| <= ENCODER_CEILING && (failed ==> buffer == [])
    }

    constructor ()
      ensures Valid() && buffer == [] && !failed
    {
      buffer, failed := [], false;
    }

    /** reserve_for() and the append behind it. */
    method Append(b: Bytes)
      requires Valid()
      modifies this
      ensures Valid() && Wrote(old(buffer), old(failed), buffer, failed, b, true)
    {
      if failed { return; }
      if |b| > ENCODER_CEILING || |buffer| > ENCODER_CEILING - |b| {
        buffer, failed := [], true;
        return;
      }
      buffer := buffer + b;
    }

    /** u8(), u16(), u32(), u64(): the low bytes, least significant first. */
    method Unsigned(x: nat, n: nat)
      requires Valid()
      modifies this
      ensures Valid() && Wrote(old(buffer), old(failed), buffer, failed, LE(x, n), true)
    {
      var raw := new U8[n];
      StoreWord(raw, 0, n, x);
      assert raw[..] == raw[0..n];
      Append(raw[..]);
    }

    method U8(x: U8)
      requires Valid()
      modifies this
      ensures Valid() && Wrote(old(buffer), old(failed), buffer, failed, Byte().write(x), true)
    {
      hide LE;
      Unsigned(x, 1);
    }

    method U16(x: U16)
      requires Valid()
      modifies this
      ensures Valid() && Wrote(old(buffer), old(failed), buffer, failed, Word16().write(x), true)
    {
      hide LE;
      Unsigned(x, 2);
    }

    method U32(x: U32)
      requires Valid()
      modifies this
      ensures Valid() && Wrote(old(buffer), old(failed), buffer, failed, Word32().write(x), true)
    {
      hide LE;
      Unsigned(x, 4);
    }

    method U64(x: U64)
      requires Valid()
      modifies this
      ensures Valid() && Wrote(old(buffer), old(failed), buffer, failed, Word64().write(x), true)
    {
      hide LE;
      Unsigned(x, 8);
    }

    method Number64(x: I64)
      requires Valid()
      modifies this
      ensures Valid() && Wrote(old(buffer), old(failed), buffer, failed, Signed().write(x), true)
    {
      hide Word64;
      U64(if x < 0 then x + TWO_64 else x);
    }

    method Boolean(x: bool)
      requires Valid()
      modifies this
      ensures Valid() && Wrote(old(buffer), old(failed), buffer, failed, Flag().write(x), true)
    {
      hide Byte;
      U8(if x then 1 else 0);
    }

    method Id128(x: Id)
      requires Valid()
      modifies this
      ensures Valid() && Wrote(old(buffer), old(failed), buffer, failed, Identity().write(x), true)
    {
      hide Word64, HighHalf, LowHalf;
      U64(HighHalf(x));
      ghost var s1, f1 := buffer, failed;
      U64(LowHalf(x));
      WroteBoth(old(buffer), old(failed), s1, f1, buffer, failed, Word64().write(HighHalf(x)),
        Word64().write(LowHalf(x)), true, true);
    }

    /** string(): a bounded length prefix and the bytes; anything longer latches the failure. */
    method Text(t: Text, max: U32)
      requires Valid()
      modifies this
      ensures Valid() && Wrote(old(buffer), old(failed), buffer, failed, TextOf(max).write(t), |t| <= max)
    {
      hide LE;
      if |t| > max {
        buffer, failed := [], true;
        return;
      }
      Unsigned(|t|, 4);
      ghost var s1, f1 := buffer, failed;
      if failed { return; }
      Append(t);
      WroteBoth(old(buffer), old(failed), s1, f1, buffer, failed, LE(|t|, 4), t, true, true);
    }
  }

  /** The reader's answer and what it leaves to be read are the codec's. */
  predicate Read<T(==)>(c: Codec<T>, before: Bytes, after: Bytes, r: Option<T>)
  {
    var p := c.read(before);
    if p.Some? then r == Some(p.value.0) && after == p.value.1 else r.None?
  }

  class Decoder {
    const data: Bytes
    var offset: nat

    ghost predicate Valid()
      reads this
    {
      offset <= |data|
    }

    ghost function Rest(): Bytes
      requires Valid()
      reads this
    {
      data[offset..]
    }

    constructor (data: Bytes)
      ensures Valid() && Rest() == data && this.data == data
    {
      this.data := data;
      offset := 0;
    }

    /** take(): the next bytes, if there are that many. */
    method Take(n: nat) returns (r: Option<Bytes>)
      requires Valid()
      modifies this
      ensures Valid()
      ensures r == if n <= |old(Rest())| then Some(old(Rest())[..n]) else None
      ensures Rest() == if n <= |old(Rest())| then old(Rest())[n..] else old(Rest())
    {
      if n > |data| - offset { return None; }
      assert data[offset..offset + n] == data[offset..][..n] && data[offset + n..] == data[offset..][n..];
      r := Some(data[offset..offset + n]);
      offset := offset + n;
    }

    method Unsigned(n: nat) returns (r: Option<nat>)
      requires Valid()
      modifies this
      ensures Valid() && Read(Fixed(n), old(Rest()), Rest(), r)
    {
      hide Nat;
      var raw := Take(n);
      if raw.None? { return None; }
      var x := LoadWord(raw.value, 0, n);
      assert raw.value[0..n] == raw.value;
      return Some(x);
    }

    method U8() returns (r: Option<U8>)
      requires Valid()
      modifies this
      ensures Valid() && Read(Byte(), old(Rest()), Rest(), r)
    {
      hide Nat, LE;
      Pow256Values();
      var x := Unsigned(1);
      if x.None? { return None; }
      return Some(x.value);
    }

    method U16() returns (r: Option<U16>)
      requires Valid()
      modifies this
      ensures Valid() && Read(Word16(), old(Rest()), Rest(), r)
    {
      hide Nat, LE;
      Pow256Values();
      var x := Unsigned(2);
      if x.None? { return None; }
      return Some(x.value);
    }

    method U32() returns (r: Option<U32>)
      requires Valid()
      modifies this
      ensures Valid() && Read(Word32(), old(Rest()), Rest(), r)
    {
      hide Nat, LE;
      Pow256Values();
      var x := Unsigned(4);
      if x.None? { return None; }
      return Some(x.value);
    }

    method U64() returns (r: Option<U64>)
      requires Valid()
      modifies this
      ensures Valid() && Read(Word64(), old(Rest()), Rest(), r)
    {
      hide Nat, LE;
      Pow256Values();
      var x := Unsigned(8);
      if x.None? { return None; }
      return Some(x.value);
    }

    method Number64() returns (r: Option<I64>)
      requires Valid()
      modifies this
      ensures Valid() && Read(Signed(), old(Rest()), Rest(), r)
    {
      hide Word64;
      var x := U64();
      if x.None? { return None; }
      return Some(if x.value < 0x8000_0000_0000_0000 then x.value else x.value - TWO_64);
    }

    method Boolean() returns (r: Option<bool>)
      requires Valid()
      modifies this
      ensures Valid() && Read(Flag(), old(Rest()), Rest(), r)
    {
      hide Byte;
      var x := U8();
      if x.None? || x.value > 1 { return None; }
      return Some(x.value == 1);
    }

    method Id128() returns (r: Option<Id>)
      requires Valid()
      modifies this
      ensures Valid() && Read(Identity(), old(Rest()), Rest(), r)
    {
      hide Word64, JoinHalves;
      var hi := U64();
      if hi.None? { return None; }
      var lo := U64();
      if lo.None? { return None; }
      return Some(JoinHalves(hi.value, lo.value));
    }

    /** string(): refuses a length beyond the bound before looking at the bytes. */
    method Text(max: U32) returns (r: Option<Text>)
      requires Valid()
      modifies this
      ensures Valid() && Read(TextOf(max), old(Rest()), Rest(), r)
    {
      hide Nat;
      var n := Unsigned(4);
      if n.None? || n.value > max { return None; }
      r := Take(n.value);
    }
  }
}

// Evidence records read from and written to the buffers, field by field.
module EvidenceIo {
  import opened Words
  import opened LittleEndian
  import opened Evidence
  import opened State
  import opened Codec
  import opened Wire
  import opened Records
  import opened EvidenceCodec
  import opened Buffers

  method DecodeSideRef(reader: Decoder) returns (r: Option<SideRef>)
    requires reader.Valid()
    modifies reader
    ensures reader.Valid() && Read(SideRefC(), old(reader.Rest()), reader.Rest(), r)
  {
    hide Identity, Word32;
    var x := reader.Id128();
    if x.None? { return None; }
    var side := reader.U32();
    if side.None? { return None; }
    return Some(SideRef(x.value, side.value));
  }

  method DecodePortRef(reader: Decoder) returns (r: Option<PortRef>)
    requires reader.Valid()
    modifies reader
    ensures reader.Valid() && Read(PortRefC(), old(reader.Rest()), reader.Rest(), r)
  {
    hide Identity, Word32;
    var x := reader.Id128();
    if x.None? { return None; }
    var index := reader.U32();
    if index.None? { return None; }
    return Some(PortRef(x.value, index.value));
  }

  method DecodeConnector(reader: Decoder) returns (r: Option<ConnectorClass>)
    requires reader.Valid()
    modifies reader
    ensures reader.Valid() && Read(ConnectorC(), old(reader.Rest()), reader.Rest(), r)
  {
    hide Byte;
    var x := reader.U8();
    if x.None? || x.value > 18 { return None; }
    return Some(x.value);
  }

  method DecodeMedia(reader: Decoder) returns (r: Option<MediaClass>)
    requires reader.Valid()
    modifies reader
    ensures reader.Valid() && Read(MediaC(), old(reader.Rest()), reader.Rest(), r)
  {
    hide Byte;
    var x := reader.U8();
    if x.None? || x.value > 8 { return None; }
    return Some(x.value);
  }

  method DecodeSide(reader: Decoder) returns (r: Option<SideDescriptor>)
    requires reader.Valid()
    modifies reader
    ensures reader.Valid() && Read(SideC(), old(reader.Rest()), reader.Rest(), r)
  {
    hide ConnectorC, MediaC, Word16;
    var connector := DecodeConnector(reader);
    if connector.None? { return None; }
    var media := DecodeMedia(reader);
    if media.None? { return None; }
    var lanes := reader.U16();
    if lanes.None? { return None; }
    return Some(SideDescriptor(connector.value, media.value, lanes.value));
  }

  method DecodeRates(reader: Decoder, l: Limits) returns (r: Option<(U64, (U64, (U64, (bool, Text))))>)
    requires reader.Valid()
    modifies reader
    ensures reader.Valid()
    ensures Read(Pair(Word64(), Pair(Word64(), Pair(Word64(), Pair(Flag(), TextOf(l.maxCodeBytes))))),
            old(reader.Rest()), reader.Rest(), r)
  {
    hide Word64, Flag, TextOf;
    var laneRate := reader.U64();
    if laneRate.None? { return None; }
    var totalRate := reader.U64();
    if totalRate.None? { return None; }
    var reach := reader.U64();
    if reach.None? { return None; }
    var declared := reader.Boolean();
    if declared.None? { return None; }
    var code := reader.Text(l.maxCodeBytes);
    if code.None? { return None; }
    return Some((laneRate.value, (totalRate.value, (reach.value, (declared.value, code.value)))));
  }

  method DecodeNominal(reader: Decoder, l: Limits) returns (r: Option<NominalCapability>)
    requires reader.Valid()
    modifies reader
    ensures reader.Valid() && Read(NominalC(l), old(reader.Rest()), reader.Rest(), r)
  {
    hide ConnectorC, MediaC, Word16, Word64, Flag, TextOf;
    var media := DecodeMedia(reader);
    if media.None? { return None; }
    var connector := DecodeConnector(reader);
    if connector.None? { return None; }
    var lanes := reader.U16();
    if lanes.None? { return None; }
    var rates := DecodeRates(reader, l);
    if rates.None? { return None; }
    return Some(MakeNominal((media.value, (connector.value, (lanes.value, rates.value)))));
  }

  method DecodePortCapability(reader: Decoder, l: Limits) returns (r: Option<PortCapability>)
    requires reader.Valid()
    modifies reader
    ensures reader.Valid() && Read(PortCapabilityC(l), old(reader.Rest()), reader.Rest(), r)
  {
    hide ConnectorC, MediaC, Word16, Word32;
    var count := reader.U32();
    if count.None? { return None; }
    var connector := DecodeConnector(reader);
    if connector.None? { return None; }
    var media := DecodeMedia(reader);
    if media.None? { return None; }
    var lanes := reader.U16();
    if lanes.None? || count.value == 0 || count.value > l.maxPortAttachments { return None; }
    return Some(PortCapability(count.value, connector.value, media.value, lanes.value));
  }

  /** decode_vector() for side descriptors: a bounded count, then a staged list. */
  method DecodeSides(reader: Decoder, max: U32) returns (r: Option<seq<SideDescriptor>>)
    requires reader.Valid()
    modifies reader
    ensures reader.Valid() && Read(ListOf(SideC(), max), old(reader.Rest()), reader.Rest(), r)
  {
    hide SideC, Nat, ReadAll;
    var count := reader.Unsigned(4);
    if count.None? || count.value > max { return None; }
    var staged: seq<SideDescriptor> := [];
    ghost var body := reader.Rest();
    ReadNone(SideC(), count.value, body);
    while |staged| < count.value
      invariant |staged| <= count.value && reader.Valid()
      invariant ReadAll(SideC(), count.value, body) == Resume(SideC(), staged, count.value - |staged|, reader.Rest())
    {
      ghost var before := reader.Rest();
      var element := DecodeSide(reader);
      ResumeOne(SideC(), staged, count.value - |staged|, before);
      if element.None? { return None; }
      staged := staged + [element.value];
    }
    ResumeDone(SideC(), staged, reader.Rest());
    return Some(staged);
  }

  /** A list half read: the elements staged so far, then the rest. */
  function Resume<A>(c: Codec<A>, staged: seq<A>, n: nat, s: Bytes): Option<(seq<A>, Bytes)>
  {
    var rest := ReadAll(c, n, s);
    if rest.None? then None else Some((staged + rest.value.0, rest.value.1))
  }

  lemma ReadNone<A>(c: Codec<A>, n: nat, s: Bytes)
    ensures Resume(c, [], n, s) == ReadAll(c, n, s)
  {
    var rest := ReadAll(c, n, s);
    if rest.Some? { assert [] + rest.value.0 == rest.value.0; }
  }

  lemma ResumeOne<A>(c: Codec<A>, staged: seq<A>, n: nat, s: Bytes)
    requires n > 0
    ensures Resume(c, staged, n, s) == if c.read(s).None? then None
            else Resume(c, staged + [c.read(s).value.0], n - 1, c.read(s).value.1)
  {
    if c.read(s).Some? {
      var x := c.read(s).value;
      var xs := ReadAll(c, n - 1, x.1);
      if xs.Some? {
        assert staged + ([x.0] + xs.value.0) == (staged + [x.0]) + xs.value.0;
      }
    }
  }

  lemma ResumeDone<A>(c: Codec<A>, staged: seq<A>, s: Bytes)
    ensures Resume(c, staged, 0, s) == Some((staged, s))
  {
    assert staged + [] == staged;
  }

  method DecodeBody(reader: Decoder, l: Limits) returns (r: Option<(Text, (seq<SideDescriptor>, NominalCapability))>)
    requires reader.Valid()
    modifies reader
    ensures reader.Valid()
    ensures Read(Pair(TextOf(l.maxStringBytes), Pair(ListOf(SideC(), l.maxSidesPerObject), NominalC(l))),
            old(reader.Rest()), reader.Rest(), r)
  {
    hide TextOf, ListOf, NominalC, SideC;
    var location := reader.Text(l.maxStringBytes);
    if location.None? { return None; }
    var sides := DecodeSides(reader, l.maxSidesPerObject);
    if sides.None? { return None; }
    var capability := DecodeNominal(reader, l);
    if capability.None? { return None; }
    return Some((location.value, (sides.value, capability.value)));
  }

  method DecodeObjectRaw(reader: Decoder, l: Limits) returns (r: Option<ObjectTuple>)
    requires reader.Valid()
    modifies reader
    ensures reader.Valid() && Read(ObjectRaw(l), old(reader.Rest()), reader.Rest(), r)
  {
    hide Identity, ObjectKindC, TextOf, ListOf, NominalC, SideC;
    var id := reader.Id128();
    if id.None? { return None; }
    var kind := DecodeObjectKind(reader);
    if kind.None? { return None; }
    var text := reader.Text(l.maxStringBytes);
    if text.None? { return None; }
    var serial := reader.Text(l.maxStringBytes);
    if serial.None? { return None; }
    var body := DecodeBody(reader, l);
    if body.None? { return None; }
    return Some((id.value, (kind.value, (text.value, (serial.value, body.value)))));
  }

  method DecodeObject(reader: Decoder, l: Limits) returns (r: Option<ObjectDescriptor>)
    requires reader.Valid()
    modifies reader
    ensures reader.Valid() && Read(ObjectC(l), old(reader.Rest()), reader.Rest(), r)
  {
    hide ObjectRaw;
    var p := DecodeObjectRaw(reader, l);
    if p.None? || !ObjectNamed(MakeObject(p.value)) { return None; }
    return Some(MakeObject(p.value));
  }

  method DecodeObjectKind(reader: Decoder) returns (r: Option<ObjectKind>)
    requires reader.Valid()
    modifies reader
    ensures reader.Valid() && Read(ObjectKindC(), old(reader.Rest()), reader.Rest(), r)
  {
    hide Byte;
    var x := reader.U8();
    if x.None? || x.value > 8 { return None; }
    return Some(x.value);
  }

  method DecodeEndpointKind(reader: Decoder) returns (r: Option<EndpointKind>)
    requires reader.Valid()
    modifies reader
    ensures reader.Valid() && Read(EndpointKindC(), old(reader.Rest()), reader.Rest(), r)
  {
    hide Byte;
    var x := reader.U8();
    if x.None? || x.value > 7 { return None; }
    return Some(x.value);
  }

  method DecodeProvenance(reader: Decoder) returns (r: Option<ProvenanceClass>)
    requires reader.Valid()
    modifies reader
    ensures reader.Valid() && Read(ProvenanceC(), old(reader.Rest()), reader.Rest(), r)
  {
    hide Byte;
    var x := reader.U8();
    if x.None? || x.value > 6 { return None; }
    return Some(x.value);
  }

  method DecodeAction(reader: Decoder) returns (r: Option<LifecycleAction>)
    requires reader.Valid()
    modifies reader
    ensures reader.Valid() && Read(ActionC(), old(reader.Rest()), reader.Rest(), r)
  {
    hide Byte;
    var x := reader.U8();
    if x.None? || x.value > 3 { return None; }
    return Some(ActionOf(x.value));
  }

  method DecodePlace(reader: Decoder, l: Limits) returns (r: Option<(Text, (U32, PortCapability))>)
    requires reader.Valid()
    modifies reader
    ensures reader.Valid()
    ensures Read(Pair(TextOf(l.maxStringBytes), Pair(Word32(), PortCapabilityC(l))), old(reader.Rest()), reader.Rest(),
            r)
  {
    hide TextOf, Word32, PortCapabilityC;
    var location := reader.Text(l.maxStringBytes);
    if location.None? { return None; }
    var ports := reader.U32();
    if ports.None? { return None; }
    var capability := DecodePortCapability(reader, l);
    if capability.None? { return None; }
    return Some((location.value, (ports.value, capability.value)));
  }

  method DecodeEndpointRaw(reader: Decoder, l: Limits) returns (r: Option<EndpointTuple>)
    requires reader.Valid()
    modifies reader
    ensures reader.Valid() && Read(EndpointRaw(l), old(reader.Rest()), reader.Rest(), r)
  {
    hide Identity, EndpointKindC, TextOf, Word32, PortCapabilityC;
    var id := reader.Id128();
    if id.None? { return None; }
    var kind := DecodeEndpointKind(reader);
    if kind.None? { return None; }
    var name := reader.Text(l.maxStringBytes);
    if name.None? { return None; }
    var place := DecodePlace(reader, l);
    if place.None? { return None; }
    return Some((id.value, (kind.value, (name.value, place.value))));
  }

  method DecodeEndpoint(reader: Decoder, l: Limits) returns (r: Option<EndpointDescriptor>)
    requires reader.Valid()
    modifies reader
    ensures reader.Valid() && Read(EndpointC(l), old(reader.Rest()), reader.Rest(), r)
  {
    hide EndpointRaw;
    var p := DecodeEndpointRaw(reader, l);
    if p.None? || !EndpointNamed(MakeEndpoint(p.value), l) { return None; }
    return Some(MakeEndpoint(p.value));
  }

  method DecodeOrigin(reader: Decoder, l: Limits) returns (r: Option<(I64, (ProvenanceClass, (Text, U32)))>)
    requires reader.Valid()
    modifies reader
    ensures reader.Valid()
    ensures Read(Pair(Signed(), Pair(ProvenanceC(), Pair(TextOf(l.maxStringBytes), Word32()))), old(reader.Rest()),
            reader.Rest(), r)
  {
    hide Signed, ProvenanceC, TextOf, Word32;
    var observedAt := reader.Number64();
    if observedAt.None? { return None; }
    var provenance := DecodeProvenance(reader);
    if provenance.None? { return None; }
    var detail := reader.Text(l.maxStringBytes);
    if detail.None? { return None; }
    var version := reader.U32();
    if version.None? { return None; }
    return Some((observedAt.value, (provenance.value, (detail.value, version.value))));
  }

  method DecodeHeaderRaw(reader: Decoder, l: Limits) returns (r: Option<HeaderTuple>)
    requires reader.Valid()
    modifies reader
    ensures reader.Valid() && Read(HeaderRaw(l), old(reader.Rest()), reader.Rest(), r)
  {
    hide Identity, Word64, Signed, ProvenanceC, TextOf, Word32;
    var id := reader.Id128();
    if id.None? { return None; }
    var source := reader.Id128();
    if source.None? { return None; }
    var incarnation := reader.U64();
    if incarnation.None? { return None; }
    var generation := reader.U64();
    if generation.None? { return None; }
    var origin := DecodeOrigin(reader, l);
    if origin.None? { return None; }
    return Some((id.value, (source.value, (incarnation.value, (generation.value, origin.value)))));
  }

  method DecodeHeader(reader: Decoder, l: Limits) returns (r: Option<Header>)
    requires reader.Valid()
    modifies reader
    ensures reader.Valid() && Read(HeaderC(l), old(reader.Rest()), reader.Rest(), r)
  {
    hide HeaderRaw;
    var p := DecodeHeaderRaw(reader, l);
    if p.None? || !HeaderNamed(MakeHeader(p.value)) { return None; }
    return Some(MakeHeader(p.value));
  }

  // ---- Payloads ----

  method DecodeAttach(reader: Decoder) returns (r: Option<AttachTuple>)
    requires reader.Valid()
    modifies reader
    ensures reader.Valid() && Read(AttachRaw(), old(reader.Rest()), reader.Rest(), r)
  {
    hide SideRefC, PortRefC, Word64, Word32;
    var subject := DecodeSideRef(reader);
    if subject.None? { return None; }
    var port := DecodePortRef(reader);
    if port.None? { return None; }
    var incarnation := reader.U64();
    if incarnation.None? { return None; }
    var slot := reader.U32();
    if slot.None? { return None; }
    return Some((subject.value, (port.value, (incarnation.value, slot.value))));
  }

  method DecodeDetach(reader: Decoder) returns (r: Option<DetachTuple>)
    requires reader.Valid()
    modifies reader
    ensures reader.Valid() && Read(DetachRaw(), old(reader.Rest()), reader.Rest(), r)
  {
    hide SideRefC, PortRefC, Word64, Word32, Flag;
    var subject := DecodeSideRef(reader);
    if subject.None? { return None; }
    var incarnation := reader.U64();
    if incarnation.None? { return None; }
    var hasFromPort := reader.Boolean();
    if hasFromPort.None? { return None; }
    var fromPort := DecodePortRef(reader);
    if fromPort.None? { return None; }
    var slot := reader.U32();
    if slot.None? { return None; }
    return Some((subject.value, (incarnation.value, (hasFromPort.value, (fromPort.value, slot.value)))));
  }

  method DecodeEnds(reader: Decoder) returns (r: Option<(PortRef, (PortRef, (U32, U32)))>)
    requires reader.Valid()
    modifies reader
    ensures reader.Valid() && Read(Pair(PortRefC(), Pair(PortRefC(), Pair(Word32(), Word32()))), old(reader.Rest()),
            reader.Rest(), r)
  {
    hide PortRefC, Word32;
    var from := DecodePortRef(reader);
    if from.None? { return None; }
    var to := DecodePortRef(reader);
    if to.None? { return None; }
    var fromSlot := reader.U32();
    if fromSlot.None? { return None; }
    var toSlot := reader.U32();
    if toSlot.None? { return None; }
    return Some((from.value, (to.value, (fromSlot.value, toSlot.value))));
  }

  method DecodeMove(reader: Decoder) returns (r: Option<MoveTuple>)
    requires reader.Valid()
    modifies reader
    ensures reader.Valid() && Read(MoveRaw(), old(reader.Rest()), reader.Rest(), r)
  {
    hide SideRefC, PortRefC, Word64, Word32;
    var subject := DecodeSideRef(reader);
    if subject.None? { return None; }
    var incarnation := reader.U64();
    if incarnation.None? { return None; }
    var ends := DecodeEnds(reader);
    if ends.None? { return None; }
    return Some((subject.value, (incarnation.value, ends.value)));
  }

  method DecodeLifecycle(reader: Decoder, l: Limits) returns (r: Option<LifecycleTuple>)
    requires reader.Valid()
    modifies reader
    ensures reader.Valid() && Read(LifecycleRaw(l), old(reader.Rest()), reader.Rest(), r)
  {
    hide Identity, Word64, ActionC, TextOf;
    var x := reader.Id128();
    if x.None? { return None; }
    var incarnation := reader.U64();
    if incarnation.None? { return None; }
    var action := DecodeAction(reader);
    if action.None? { return None; }
    var reason := reader.Text(l.maxStringBytes);
    if reason.None? { return None; }
    return Some((x.value, (incarnation.value, (action.value, reason.value))));
  }

  method DecodeReincarnate(reader: Decoder, l: Limits) returns (r: Option<ReincarnateTuple>)
    requires reader.Valid()
    modifies reader
    ensures reader.Valid() && Read(ReincarnateRaw(l), old(reader.Rest()), reader.Rest(), r)
  {
    hide Identity, Word64, TextOf;
    var x := reader.Id128();
    if x.None? { return None; }
    var from := reader.U64();
    if from.None? { return None; }
    var serial := reader.Text(l.maxStringBytes);
    if serial.None? { return None; }
    var reason := reader.Text(l.maxStringBytes);
    if reason.None? { return None; }
    return Some((x.value, (from.value, (serial.value, reason.value))));
  }

  method DecodeObjectCapability(reader: Decoder, l: Limits) returns (r: Option<(Id, NominalCapability)>)
    requires reader.Valid()
    modifies reader
    ensures reader.Valid() && Read(Pair(Identity(), NominalC(l)), old(reader.Rest()), reader.Rest(), r)
  {
    hide Identity, NominalC;
    var x := reader.Id128();
    if x.None? { return None; }
    var capability := DecodeNominal(reader, l);
    if capability.None? { return None; }
    return Some((x.value, capability.value));
  }

  method DecodeCapabilityOfPort(reader: Decoder, l: Limits) returns (r: Option<(PortRef, PortCapability)>)
    requires reader.Valid()
    modifies reader
    ensures reader.Valid() && Read(Pair(PortRefC(), PortCapabilityC(l)), old(reader.Rest()), reader.Rest(), r)
  {
    hide PortRefC, PortCapabilityC;
    var port := DecodePortRef(reader);
    if port.None? { return None; }
    var capability := DecodePortCapability(reader, l);
    if capability.None? { return None; }
    return Some((port.value, capability.value));
  }

  lemma IsoRead<A, B>(c: Codec<A>, to: A -> B, from: B -> A, before: Bytes, after: Bytes, r: Option<A>)
    requires Read(c, before, after, r)
    ensures Read(Iso(c, to, from), before, after, if r.Some? then Some(to(r.value)) else None)
  {
  }

  /** The payload of one kind; an unknown kind is refused. */
  method DecodeKind(reader: Decoder, l: Limits, kind: U16) returns (r: Option<Payload>)
    requires reader.Valid()
    modifies reader
    ensures reader.Valid() && Read(KindC(l, kind), old(reader.Rest()), reader.Rest(), r)
  {
    hide Iso, ObjectC, EndpointC, AttachRaw, DetachRaw, MoveRaw, LifecycleRaw, ReincarnateRaw, Read, PortRefC,
         NominalC, PortCapabilityC, Identity, Pair;
    ghost var before := reader.Rest();
    if kind == 1 {
      var p := DecodeObject(reader, l);
      IsoRead(ObjectC(l), ToRegisterObject, FromRegisterObject, before, reader.Rest(), p);
      return if p.None? then None else Some(ToRegisterObject(p.value));
    } else if kind == 2 {
      var p := DecodeEndpoint(reader, l);
      IsoRead(EndpointC(l), ToRegisterEndpoint, FromRegisterEndpoint, before, reader.Rest(), p);
      return if p.None? then None else Some(ToRegisterEndpoint(p.value));
    } else if kind == 3 {
      var p := DecodeAttach(reader);
      IsoRead(AttachRaw(), ToAttach, FromAttach, before, reader.Rest(), p);
      return if p.None? then None else Some(ToAttach(p.value));
    } else if kind == 4 {
      var p := DecodeDetach(reader);
      IsoRead(DetachRaw(), ToDetach, FromDetach, before, reader.Rest(), p);
      return if p.None? then None else Some(ToDetach(p.value));
    } else if kind == 5 {
      var p := DecodeMove(reader);
      IsoRead(MoveRaw(), ToMove, FromMove, before, reader.Rest(), p);
      return if p.None? then None else Some(ToMove(p.value));
    } else if kind == 6 {
      var p := DecodeObjectCapability(reader, l);
      IsoRead(Pair(Identity(), NominalC(l)), ToObjectCapability, FromObjectCapability, before, reader.Rest(), p);
      return if p.None? then None else Some(ToObjectCapability(p.value));
    } else if kind == 7 {
      var p := DecodeCapabilityOfPort(reader, l);
      IsoRead(Pair(PortRefC(), PortCapabilityC(l)), ToPortCapability, FromPortCapability, before, reader.Rest(), p);
      return if p.None? then None else Some(ToPortCapability(p.value));
    } else if kind == 8 {
      var p := DecodeLifecycle(reader, l);
      IsoRead(LifecycleRaw(l), ToLifecycle, FromLifecycle, before, reader.Rest(), p);
      return if p.None? then None else Some(ToLifecycle(p.value));
    } else if kind == 9 {
      var p := DecodeReincarnate(reader, l);
      IsoRead(ReincarnateRaw(l), ToReincarnate, FromReincarnate, before, reader.Rest(), p);
      return if p.None? then None else Some(ToReincarnate(p.value));
    } else {
      NeverRead(before, reader.Rest());
      assert KindC(l, kind) == Never<Payload>();
      r := None;
    }
  }

  lemma NeverRead(before: Bytes, after: Bytes)
    ensures Read(Never<Payload>(), before, after, None)
  {
  }

  /** decode_evidence() on a cursor. */
  method DecodeRecord(reader: Decoder, l: Limits) returns (r: Option<Evidence>)
    requires reader.Valid()
    modifies reader
    ensures reader.Valid() && Read(EvidenceC(l), old(reader.Rest()), reader.Rest(), r)
  {
    hide HeaderC, KindC, Word16;
    var h := DecodeHeader(reader, l);
    if h.None? { return None; }
    var kind := reader.U16();
    if kind.None? { return None; }
    var p := DecodeKind(reader, l, kind.value);
    if p.None? || !Dated(p.value) { return None; }
    return Some(Evidence(h.value, p.value));
  }

  /** decode_evidence() on a whole buffer: trailing bytes are refused. */
  method DecodeEvidence(data: Bytes, l: Limits) returns (r: Option<Evidence>)
    ensures r == Whole(EvidenceC(l), data)
  {
    hide EvidenceC;
    var reader := new Decoder(data);
    r := DecodeRecord(reader, l);
    if r.Some? && reader.offset != |data| { return None; }
  }

  // ---- Writing ----

  lemma WrotePair<A, B>(a: Codec<A>, b: Codec<B>, v: (A, B), s0: Bytes, f0: bool, s1: Bytes, f1: bool, s2: Bytes,
                        f2: bool, x: bool, y: bool)
    requires Wrote(s0, f0, s1, f1, a.write(v.0), x) && Wrote(s1, f1, s2, f2, b.write(v.1), y)
    ensures Wrote(s0, f0, s2, f2, Pair(a, b).write(v), x && y)
  {
    WroteBoth(s0, f0, s1, f1, s2, f2, a.write(v.0), b.write(v.1), x, y);
    PairWrite(a, b, v);
  }

  method EncodeSideRef(out: Encoder, x: SideRef)
    requires out.Valid()
    modifies out
    ensures out.Valid() && Wrote(old(out.buffer), old(out.failed), out.buffer, out.failed, SideRefC().write(x), true)
  {
    hide Identity, Word32, Wrote;
    ghost var s0, f0 := out.buffer, out.failed;
    out.Id128(x.objectId);
    ghost var s1, f1 := out.buffer, out.failed;
    out.U32(x.side);
    ghost var s2, f2 := out.buffer, out.failed;
    var p := SideRefParts(x);
    WrotePair(Identity(), Word32(), p, s0, f0, s1, f1, s2, f2, true, true);
    IsoWrite(Pair(Identity(), Word32()), MakeSideRef, SideRefParts, x);
  }

  method EncodePortRef(out: Encoder, x: PortRef)
    requires out.Valid()
    modifies out
    ensures out.Valid() && Wrote(old(out.buffer), old(out.failed), out.buffer, out.failed, PortRefC().write(x), true)
  {
    hide Identity, Word32, Wrote;
    ghost var s0, f0 := out.buffer, out.failed;
    out.Id128(x.endpoint);
    ghost var s1, f1 := out.buffer, out.failed;
    out.U32(x.index);
    ghost var s2, f2 := out.buffer, out.failed;
    var p := PortRefParts(x);
    WrotePair(Identity(), Word32(), p, s0, f0, s1, f1, s2, f2, true, true);
    IsoWrite(Pair(Identity(), Word32()), MakePortRef, PortRefParts, x);
  }

  method EncodeConnector(out: Encoder, x: ConnectorClass)
    requires out.Valid()
    modifies out
    ensures out.Valid() && Wrote(old(out.buffer), old(out.failed), out.buffer, out.failed, ConnectorC().write(x), true)
  {
    hide Byte, Wrote;
    out.U8(x);
  }

  method EncodeMedia(out: Encoder, x: MediaClass)
    requires out.Valid()
    modifies out
    ensures out.Valid() && Wrote(old(out.buffer), old(out.failed), out.buffer, out.failed, MediaC().write(x), true)
  {
    hide Byte, Wrote;
    out.U8(x);
  }

  method EncodeObjectKind(out: Encoder, x: ObjectKind)
    requires out.Valid()
    modifies out
    ensures out.Valid() && Wrote(old(out.buffer), old(out.failed), out.buffer, out.failed, ObjectKindC().write(x), true)
  {
    hide Byte, Wrote;
    out.U8(x);
  }

  method EncodeEndpointKind(out: Encoder, x: EndpointKind)
    requires out.Valid()
    modifies out
    ensures out.Valid() && Wrote(old(out.buffer), old(out.failed), out.buffer, out.failed, EndpointKindC().write(x),
            true)
  {
    hide Byte, Wrote;
    out.U8(x);
  }

  method EncodeProvenance(out: Encoder, x: ProvenanceClass)
    requires out.Valid()
    modifies out
    ensures out.Valid() && Wrote(old(out.buffer), old(out.failed), out.buffer, out.failed, ProvenanceC().write(x), true)
  {
    hide Byte, Wrote;
    out.U8(x);
  }

  method EncodeAction(out: Encoder, x: LifecycleAction)
    requires out.Valid()
    modifies out
    ensures out.Valid() && Wrote(old(out.buffer), old(out.failed), out.buffer, out.failed, ActionC().write(x), true)
  {
    hide Byte, Wrote;
    out.U8(ActionOrdinal(x));
  }

  method EncodeSide(out: Encoder, d: SideDescriptor)
    requires out.Valid()
    modifies out
    ensures out.Valid() && Wrote(old(out.buffer), old(out.failed), out.buffer, out.failed, SideC().write(d), true)
  {
    hide ConnectorC, MediaC, Word16, Wrote, Pair, Iso;
    ghost var s0, f0 := out.buffer, out.failed;
    EncodeConnector(out, d.connector);
    ghost var s1, f1 := out.buffer, out.failed;
    EncodeMedia(out, d.media);
    ghost var s2, f2 := out.buffer, out.failed;
    out.U16(d.lanes);
    ghost var s3, f3 := out.buffer, out.failed;
    var p := SideParts(d);
    WrotePair(MediaC(), Word16(), p.1, s1, f1, s2, f2, s3, f3, true, true);
    WrotePair(ConnectorC(), Pair(MediaC(), Word16()), p, s0, f0, s1, f1, s3, f3, true, true);
    IsoWrite(Pair(ConnectorC(), Pair(MediaC(), Word16())), MakeSide, SideParts, d);
  }

  method EncodeRates(out: Encoder, p: (U64, (U64, (U64, (bool, Text)))), l: Limits)
    requires out.Valid()
    modifies out
    ensures out.Valid() && Wrote(old(out.buffer), old(out.failed), out.buffer, out.failed,
            Pair(Word64(), Pair(Word64(), Pair(Word64(), Pair(Flag(), TextOf(l.maxCodeBytes))))).write(p),
            Fits(p.1.1.1.1, l.maxCodeBytes))
  {
    hide Identity, Word16, Word32, Word64, Signed, Flag, TextOf, Wrote, Pair, Iso;
    ghost var s0, f0 := out.buffer, out.failed;
    out.U64(p.0);
    ghost var s1, f1 := out.buffer, out.failed;
    out.U64(p.1.0);
    ghost var s2, f2 := out.buffer, out.failed;
    out.U64(p.1.1.0);
    ghost var s3, f3 := out.buffer, out.failed;
    out.Boolean(p.1.1.1.0);
    ghost var s4, f4 := out.buffer, out.failed;
    out.Text(p.1.1.1.1, l.maxCodeBytes);
    ghost var s5, f5 := out.buffer, out.failed;
    WrotePair(Flag(), TextOf(l.maxCodeBytes), p.1.1.1, s3, f3, s4, f4, s5, f5, true, Fits(p.1.1.1.1, l.maxCodeBytes));
    WrotePair(Word64(), Pair(Flag(), TextOf(l.maxCodeBytes)), p.1.1, s2, f2, s3, f3, s5, f5, true,
      Fits(p.1.1.1.1, l.maxCodeBytes));
    WrotePair(Word64(), Pair(Word64(), Pair(Flag(), TextOf(l.maxCodeBytes))), p.1, s1, f1, s2, f2, s5, f5, true,
      Fits(p.1.1.1.1, l.maxCodeBytes));
    WrotePair(Word64(), Pair(Word64(), Pair(Word64(), Pair(Flag(), TextOf(l.maxCodeBytes)))), p, s0, f0, s1, f1, s5,
      f5, true, Fits(p.1.1.1.1, l.maxCodeBytes));
  }

  method EncodeNominal(out: Encoder, c: NominalCapability, l: Limits)
    requires out.Valid()
    modifies out
    ensures out.Valid() && Wrote(old(out.buffer), old(out.failed), out.buffer, out.failed, NominalC(l).write(c),
            Fits(c.code, l.maxCodeBytes))
  {
    hide Identity, Word16, Word32, Word64, Signed, Flag, TextOf, Wrote, Pair, Iso, MediaC, ConnectorC;
    ghost var s0, f0 := out.buffer, out.failed;
    EncodeMedia(out, c.media);
    ghost var s1, f1 := out.buffer, out.failed;
    EncodeConnector(out, c.connector);
    ghost var s2, f2 := out.buffer, out.failed;
    out.U16(c.lanes);
    ghost var s3, f3 := out.buffer, out.failed;
    EncodeRates(out, NominalParts(c).1.1.1, l);
    ghost var s4, f4 := out.buffer, out.failed;
    var p := NominalParts(c);
    WrotePair(Word16(), Pair(Word64(), Pair(Word64(), Pair(Word64(), Pair(Flag(), TextOf(l.maxCodeBytes))))), p.1.1,
      s2, f2, s3, f3, s4, f4, true, Fits(c.code, l.maxCodeBytes));
    WrotePair(ConnectorC(), Pair(Word16(), Pair(Word64(),
      Pair(Word64(), Pair(Word64(), Pair(Flag(), TextOf(l.maxCodeBytes)))))), p.1, s1, f1, s2, f2, s4, f4, true,
      Fits(c.code, l.maxCodeBytes));
    WrotePair(MediaC(), Pair(ConnectorC(), Pair(Word16(),
      Pair(Word64(), Pair(Word64(), Pair(Word64(), Pair(Flag(), TextOf(l.maxCodeBytes))))))), p, s0, f0, s1, f1, s4,
      f4, true, Fits(c.code, l.maxCodeBytes));
    IsoWrite(NominalRaw(l), MakeNominal, NominalParts, c);
  }

  method EncodePortCapability(out: Encoder, c: PortCapability, l: Limits)
    requires out.Valid()
    modifies out
    ensures out.Valid() && Wrote(old(out.buffer), old(out.failed), out.buffer, out.failed, PortCapabilityC(l).write(c),
            true)
  {
    hide Identity, Word16, Word32, Word64, Signed, Flag, TextOf, Wrote, Pair, Iso, MediaC, ConnectorC;
    ghost var s0, f0 := out.buffer, out.failed;
    out.U32(c.maxAttachments);
    ghost var s1, f1 := out.buffer, out.failed;
    EncodeConnector(out, c.connector);
    ghost var s2, f2 := out.buffer, out.failed;
    EncodeMedia(out, c.media);
    ghost var s3, f3 := out.buffer, out.failed;
    out.U16(c.lanes);
    ghost var s4, f4 := out.buffer, out.failed;
    var p := PortCapabilityParts(c);
    WrotePair(MediaC(), Word16(), p.1.1, s2, f2, s3, f3, s4, f4, true, true);
    WrotePair(ConnectorC(), Pair(MediaC(), Word16()), p.1, s1, f1, s2, f2, s4, f4, true, true);
    WrotePair(Word32(), Pair(ConnectorC(), Pair(MediaC(), Word16())), p, s0, f0, s1, f1, s4, f4, true, true);
    IsoWrite(PortCapabilityRaw(), MakePortCapability, PortCapabilityParts, c);
  }

  /** The count and the elements, one after another. */
  method EncodeSides(out: Encoder, sides: seq<SideDescriptor>, max: U32)
    requires out.Valid()
    modifies out
    ensures out.Valid() && Wrote(old(out.buffer), old(out.failed), out.buffer, out.failed,
            ListOf(SideC(), max).write(sides), true)
  {
    hide SideC, LE, Wrote;
    ghost var s0, f0 := out.buffer, out.failed;
    out.Unsigned(|sides|, 4);
    ghost var s1, f1 := out.buffer, out.failed;
    var i := 0;
    WroteNothing(s1, f1);
    assert sides[..0] == [];
    while i < |sides|
      invariant 0 <= i <= |sides| && out.Valid()
      invariant Wrote(s1, f1, out.buffer, out.failed, WriteAll(SideC(), sides[..i]), true)
    {
      ghost var s2, f2 := out.buffer, out.failed;
      EncodeSide(out, sides[i]);
      WroteBoth(s1, f1, s2, f2, out.buffer, out.failed, WriteAll(SideC(), sides[..i]), SideC().write(sides[i]), true,
        true);
      WriteOneMore(SideC(), sides[..i], sides[i]);
      assert sides[..i + 1] == sides[..i] + [sides[i]];
      i := i + 1;
    }
    assert sides[..i] == sides;
    WroteBoth(s0, f0, s1, f1, out.buffer, out.failed, LE(|sides|, 4), WriteAll(SideC(), sides), true, true);
  }

  lemma WroteNothing(s: Bytes, f: bool)
    requires |s| <= ENCODER_CEILING && (f ==> s == [])
    ensures Wrote(s, f, s, f, [], true)
  {
    assert s + [] == s;
  }

  lemma {:induction false} WriteOneMore<A>(c: Codec<A>, vs: seq<A>, v: A)
    ensures WriteAll(c, vs + [v]) == WriteAll(c, vs) + c.write(v)
  {
    if vs == [] {
      assert [v][1..] == [];
    } else {
      assert (vs + [v])[0] == vs[0] && (vs + [v])[1..] == vs[1..] + [v];
      WriteOneMore(c, vs[1..], v);
    }
  }

  method EncodeBody(out: Encoder, p: (Text, (Text, (seq<SideDescriptor>, NominalCapability))), l: Limits)
    requires out.Valid()
    modifies out
    ensures out.Valid() && Wrote(old(out.buffer), old(out.failed), out.buffer, out.failed,
            Pair(TextOf(l.maxStringBytes), Pair(TextOf(l.maxStringBytes),
            Pair(ListOf(SideC(), l.maxSidesPerObject), NominalC(l)))).write(p), Fits(p.0, l.maxStringBytes)
            && Fits(p.1.0, l.maxStringBytes) && Fits(p.1.1.1.code, l.maxCodeBytes))
  {
    hide Identity, Word16, Word32, Word64, Signed, Flag, TextOf, Wrote, Pair, Iso, ListOf, SideC, NominalC;
    ghost var s0, f0 := out.buffer, out.failed;
    out.Text(p.0, l.maxStringBytes);
    ghost var s1, f1 := out.buffer, out.failed;
    out.Text(p.1.0, l.maxStringBytes);
    ghost var s2, f2 := out.buffer, out.failed;
    EncodeSides(out, p.1.1.0, l.maxSidesPerObject);
    ghost var s3, f3 := out.buffer, out.failed;
    EncodeNominal(out, p.1.1.1, l);
    ghost var s4, f4 := out.buffer, out.failed;
    WrotePair(ListOf(SideC(), l.maxSidesPerObject), NominalC(l), p.1.1, s2, f2, s3, f3, s4, f4, true,
      Fits(p.1.1.1.code, l.maxCodeBytes));
    WrotePair(TextOf(l.maxStringBytes), Pair(ListOf(SideC(), l.maxSidesPerObject), NominalC(l)), p.1, s1, f1, s2, f2,
      s4, f4, Fits(p.1.0, l.maxStringBytes), Fits(p.1.1.1.code, l.maxCodeBytes));
    WrotePair(TextOf(l.maxStringBytes), Pair(TextOf(l.maxStringBytes),
      Pair(ListOf(SideC(), l.maxSidesPerObject), NominalC(l))), p, s0, f0, s1, f1, s4, f4, Fits(p.0, l.maxStringBytes),
      Fits(p.1.0, l.maxStringBytes) && Fits(p.1.1.1.code, l.maxCodeBytes));
  }

  method EncodeObject(out: Encoder, d: ObjectDescriptor, l: Limits)
    requires out.Valid()
    modifies out
    ensures out.Valid() && Wrote(old(out.buffer), old(out.failed), out.buffer, out.failed, ObjectC(l).write(d),
            ObjectTexts(d, l))
  {
    hide Identity, Word16, Word32, Word64, Signed, Flag, TextOf, Wrote, Pair, Iso, ObjectKindC, ListOf, SideC, NominalC;
    ghost var s0, f0 := out.buffer, out.failed;
    out.Id128(d.id);
    ghost var s1, f1 := out.buffer, out.failed;
    EncodeObjectKind(out, d.kind);
    ghost var s2, f2 := out.buffer, out.failed;
    out.Text(d.physicalLabel, l.maxStringBytes);
    ghost var s3, f3 := out.buffer, out.failed;
    EncodeBody(out, ObjectParts(d).1.1.1, l);
    ghost var s4, f4 := out.buffer, out.failed;
    var p := ObjectParts(d);
    WrotePair(TextOf(l.maxStringBytes), Pair(TextOf(l.maxStringBytes),
      Pair(TextOf(l.maxStringBytes), Pair(ListOf(SideC(), l.maxSidesPerObject), NominalC(l)))), p.1.1, s2, f2, s3, f3,
      s4, f4, Fits(d.physicalLabel, l.maxStringBytes), Fits(d.serial, l.maxStringBytes)
      && Fits(d.location, l.maxStringBytes) && Fits(d.capability.code, l.maxCodeBytes));
    WrotePair(ObjectKindC(), Pair(TextOf(l.maxStringBytes),
      Pair(TextOf(l.maxStringBytes), Pair(TextOf(l.maxStringBytes),
      Pair(ListOf(SideC(), l.maxSidesPerObject), NominalC(l))))), p.1, s1, f1, s2, f2, s4, f4, true,
      Fits(d.physicalLabel, l.maxStringBytes) && Fits(d.serial, l.maxStringBytes) && Fits(d.location, l.maxStringBytes)
      && Fits(d.capability.code, l.maxCodeBytes));
    WrotePair(Identity(), Pair(ObjectKindC(), Pair(TextOf(l.maxStringBytes),
      Pair(TextOf(l.maxStringBytes), Pair(TextOf(l.maxStringBytes),
      Pair(ListOf(SideC(), l.maxSidesPerObject), NominalC(l)))))), p, s0, f0, s1, f1, s4, f4, true,
      Fits(d.physicalLabel, l.maxStringBytes) && Fits(d.serial, l.maxStringBytes) && Fits(d.location, l.maxStringBytes)
      && Fits(d.capability.code, l.maxCodeBytes));
    IsoWrite(ObjectRaw(l), MakeObject, ObjectParts, d);
  }

  method EncodePlace(out: Encoder, p: (Text, (U32, PortCapability)), l: Limits)
    requires out.Valid()
    modifies out
    ensures out.Valid() && Wrote(old(out.buffer), old(out.failed), out.buffer, out.failed,
            Pair(TextOf(l.maxStringBytes), Pair(Word32(), PortCapabilityC(l))).write(p), Fits(p.0, l.maxStringBytes))
  {
    hide Identity, Word16, Word32, Word64, Signed, Flag, TextOf, Wrote, Pair, Iso, PortCapabilityC;
    ghost var s0, f0 := out.buffer, out.failed;
    out.Text(p.0, l.maxStringBytes);
    ghost var s1, f1 := out.buffer, out.failed;
    out.U32(p.1.0);
    ghost var s2, f2 := out.buffer, out.failed;
    EncodePortCapability(out, p.1.1, l);
    ghost var s3, f3 := out.buffer, out.failed;
    WrotePair(Word32(), PortCapabilityC(l), p.1, s1, f1, s2, f2, s3, f3, true, true);
    WrotePair(TextOf(l.maxStringBytes), Pair(Word32(), PortCapabilityC(l)), p, s0, f0, s1, f1, s3, f3,
      Fits(p.0, l.maxStringBytes), true);
  }

  method EncodeEndpoint(out: Encoder, d: EndpointDescriptor, l: Limits)
    requires out.Valid()
    modifies out
    ensures out.Valid() && Wrote(old(out.buffer), old(out.failed), out.buffer, out.failed, EndpointC(l).write(d),
            Fits(d.name, l.maxStringBytes) && Fits(d.location, l.maxStringBytes))
  {
    hide Identity, Word16, Word32, Word64, Signed, Flag, TextOf, Wrote, Pair, Iso, EndpointKindC, PortCapabilityC;
    ghost var s0, f0 := out.buffer, out.failed;
    out.Id128(d.id);
    ghost var s1, f1 := out.buffer, out.failed;
    EncodeEndpointKind(out, d.kind);
    ghost var s2, f2 := out.buffer, out.failed;
    out.Text(d.name, l.maxStringBytes);
    ghost var s3, f3 := out.buffer, out.failed;
    EncodePlace(out, EndpointParts(d).1.1.1, l);
    ghost var s4, f4 := out.buffer, out.failed;
    var p := EndpointParts(d);
    WrotePair(TextOf(l.maxStringBytes), Pair(TextOf(l.maxStringBytes), Pair(Word32(), PortCapabilityC(l))), p.1.1, s2,
      f2, s3, f3, s4, f4, Fits(d.name, l.maxStringBytes), Fits(d.location, l.maxStringBytes));
    WrotePair(EndpointKindC(), Pair(TextOf(l.maxStringBytes),
      Pair(TextOf(l.maxStringBytes), Pair(Word32(), PortCapabilityC(l)))), p.1, s1, f1, s2, f2, s4, f4, true,
      Fits(d.name, l.maxStringBytes) && Fits(d.location, l.maxStringBytes));
    WrotePair(Identity(), Pair(EndpointKindC(), Pair(TextOf(l.maxStringBytes),
      Pair(TextOf(l.maxStringBytes), Pair(Word32(), PortCapabilityC(l))))), p, s0, f0, s1, f1, s4, f4, true,
      Fits(d.name, l.maxStringBytes) && Fits(d.location, l.maxStringBytes));
    IsoWrite(EndpointRaw(l), MakeEndpoint, EndpointParts, d);
  }

  method EncodeOrigin(out: Encoder, p: (I64, (ProvenanceClass, (Text, U32))), l: Limits)
    requires out.Valid()
    modifies out
    ensures out.Valid() && Wrote(old(out.buffer), old(out.failed), out.buffer, out.failed,
            Pair(Signed(), Pair(ProvenanceC(), Pair(TextOf(l.maxStringBytes), Word32()))).write(p),
            Fits(p.1.1.0, l.maxStringBytes))
  {
    hide Identity, Word16, Word32, Word64, Signed, Flag, TextOf, Wrote, Pair, Iso, ProvenanceC;
    ghost var s0, f0 := out.buffer, out.failed;
    out.Number64(p.0);
    ghost var s1, f1 := out.buffer, out.failed;
    EncodeProvenance(out, p.1.0);
    ghost var s2, f2 := out.buffer, out.failed;
    out.Text(p.1.1.0, l.maxStringBytes);
    ghost var s3, f3 := out.buffer, out.failed;
    out.U32(p.1.1.1);
    ghost var s4, f4 := out.buffer, out.failed;
    WrotePair(TextOf(l.maxStringBytes), Word32(), p.1.1, s2, f2, s3, f3, s4, f4, Fits(p.1.1.0, l.maxStringBytes), true);
    WrotePair(ProvenanceC(), Pair(TextOf(l.maxStringBytes), Word32()), p.1, s1, f1, s2, f2, s4, f4, true,
      Fits(p.1.1.0, l.maxStringBytes));
    WrotePair(Signed(), Pair(ProvenanceC(), Pair(TextOf(l.maxStringBytes), Word32())), p, s0, f0, s1, f1, s4, f4, true,
      Fits(p.1.1.0, l.maxStringBytes));
  }

  method EncodeHeader(out: Encoder, h: Header, l: Limits)
    requires out.Valid()
    modifies out
    ensures out.Valid() && Wrote(old(out.buffer), old(out.failed), out.buffer, out.failed, HeaderC(l).write(h),
            Fits(h.detail, l.maxStringBytes))
  {
    hide Identity, Word16, Word32, Word64, Signed, Flag, TextOf, Wrote, Pair, Iso, ProvenanceC;
    ghost var s0, f0 := out.buffer, out.failed;
    out.Id128(h.id);
    ghost var s1, f1 := out.buffer, out.failed;
    out.Id128(h.source);
    ghost var s2, f2 := out.buffer, out.failed;
    out.U64(h.incarnation);
    ghost var s3, f3 := out.buffer, out.failed;
    out.U64(h.generation);
    ghost var s4, f4 := out.buffer, out.failed;
    EncodeOrigin(out, HeaderParts(h).1.1.1.1, l);
    ghost var s5, f5 := out.buffer, out.failed;
    var p := HeaderParts(h);
    WrotePair(Word64(), Pair(Signed(), Pair(ProvenanceC(), Pair(TextOf(l.maxStringBytes), Word32()))), p.1.1.1, s3, f3,
      s4, f4, s5, f5, true, Fits(h.detail, l.maxStringBytes));
    WrotePair(Word64(), Pair(Word64(), Pair(Signed(), Pair(ProvenanceC(), Pair(TextOf(l.maxStringBytes), Word32())))),
      p.1.1, s2, f2, s3, f3, s5, f5, true, Fits(h.detail, l.maxStringBytes));
    WrotePair(Identity(), Pair(Word64(), Pair(Word64(),
      Pair(Signed(), Pair(ProvenanceC(), Pair(TextOf(l.maxStringBytes), Word32()))))), p.1, s1, f1, s2, f2, s5, f5,
      true, Fits(h.detail, l.maxStringBytes));
    WrotePair(Identity(), Pair(Identity(), Pair(Word64(),
      Pair(Word64(), Pair(Signed(), Pair(ProvenanceC(), Pair(TextOf(l.maxStringBytes), Word32())))))), p, s0, f0, s1,
      f1, s5, f5, true, Fits(h.detail, l.maxStringBytes));
    IsoWrite(HeaderRaw(l), MakeHeader, HeaderParts, h);
  }

  method EncodeAttach(out: Encoder, p: AttachTuple)
    requires out.Valid()
    modifies out
    ensures out.Valid() && Wrote(old(out.buffer), old(out.failed), out.buffer, out.failed, AttachRaw().write(p), true)
  {
    hide Identity, Word16, Word32, Word64, Signed, Flag, TextOf, Wrote, Pair, Iso, SideRefC, PortRefC;
    ghost var s0, f0 := out.buffer, out.failed;
    EncodeSideRef(out, p.0);
    ghost var s1, f1 := out.buffer, out.failed;
    EncodePortRef(out, p.1.0);
    ghost var s2, f2 := out.buffer, out.failed;
    out.U64(p.1.1.0);
    ghost var s3, f3 := out.buffer, out.failed;
    out.U32(p.1.1.1);
    ghost var s4, f4 := out.buffer, out.failed;
    WrotePair(Word64(), Word32(), p.1.1, s2, f2, s3, f3, s4, f4, true, true);
    WrotePair(PortRefC(), Pair(Word64(), Word32()), p.1, s1, f1, s2, f2, s4, f4, true, true);
    WrotePair(SideRefC(), Pair(PortRefC(), Pair(Word64(), Word32())), p, s0, f0, s1, f1, s4, f4, true, true);
  }

  method EncodeDetach(out: Encoder, p: DetachTuple)
    requires out.Valid()
    modifies out
    ensures out.Valid() && Wrote(old(out.buffer), old(out.failed), out.buffer, out.failed, DetachRaw().write(p), true)
  {
    hide Identity, Word16, Word32, Word64, Signed, Flag, TextOf, Wrote, Pair, Iso, SideRefC, PortRefC;
    ghost var s0, f0 := out.buffer, out.failed;
    EncodeSideRef(out, p.0);
    ghost var s1, f1 := out.buffer, out.failed;
    out.U64(p.1.0);
    ghost var s2, f2 := out.buffer, out.failed;
    out.Boolean(p.1.1.0);
    ghost var s3, f3 := out.buffer, out.failed;
    EncodePortRef(out, p.1.1.1.0);
    ghost var s4, f4 := out.buffer, out.failed;
    out.U32(p.1.1.1.1);
    ghost var s5, f5 := out.buffer, out.failed;
    WrotePair(PortRefC(), Word32(), p.1.1.1, s3, f3, s4, f4, s5, f5, true, true);
    WrotePair(Flag(), Pair(PortRefC(), Word32()), p.1.1, s2, f2, s3, f3, s5, f5, true, true);
    WrotePair(Word64(), Pair(Flag(), Pair(PortRefC(), Word32())), p.1, s1, f1, s2, f2, s5, f5, true, true);
    WrotePair(SideRefC(), Pair(Word64(), Pair(Flag(), Pair(PortRefC(), Word32()))), p, s0, f0, s1, f1, s5, f5, true,
      true);
  }

  method EncodeEnds(out: Encoder, p: (PortRef, (PortRef, (U32, U32))))
    requires out.Valid()
    modifies out
    ensures out.Valid() && Wrote(old(out.buffer), old(out.failed), out.buffer, out.failed,
            Pair(PortRefC(), Pair(PortRefC(), Pair(Word32(), Word32()))).write(p), true)
  {
    hide Identity, Word16, Word32, Word64, Signed, Flag, TextOf, Wrote, Pair, Iso, PortRefC;
    ghost var s0, f0 := out.buffer, out.failed;
    EncodePortRef(out, p.0);
    ghost var s1, f1 := out.buffer, out.failed;
    EncodePortRef(out, p.1.0);
    ghost var s2, f2 := out.buffer, out.failed;
    out.U32(p.1.1.0);
    ghost var s3, f3 := out.buffer, out.failed;
    out.U32(p.1.1.1);
    ghost var s4, f4 := out.buffer, out.failed;
    WrotePair(Word32(), Word32(), p.1.1, s2, f2, s3, f3, s4, f4, true, true);
    WrotePair(PortRefC(), Pair(Word32(), Word32()), p.1, s1, f1, s2, f2, s4, f4, true, true);
    WrotePair(PortRefC(), Pair(PortRefC(), Pair(Word32(), Word32())), p, s0, f0, s1, f1, s4, f4, true, true);
  }

  method EncodeMove(out: Encoder, p: MoveTuple)
    requires out.Valid()
    modifies out
    ensures out.Valid() && Wrote(old(out.buffer), old(out.failed), out.buffer, out.failed, MoveRaw().write(p), true)
  {
    hide Identity, Word16, Word32, Word64, Signed, Flag, TextOf, Wrote, Pair, Iso, SideRefC, PortRefC;
    ghost var s0, f0 := out.buffer, out.failed;
    EncodeSideRef(out, p.0);
    ghost var s1, f1 := out.buffer, out.failed;
    out.U64(p.1.0);
    ghost var s2, f2 := out.buffer, out.failed;
    EncodeEnds(out, p.1.1);
    ghost var s3, f3 := out.buffer, out.failed;
    WrotePair(Word64(), Pair(PortRefC(), Pair(PortRefC(), Pair(Word32(), Word32()))), p.1, s1, f1, s2, f2, s3, f3,
      true, true);
    WrotePair(SideRefC(), Pair(Word64(), Pair(PortRefC(), Pair(PortRefC(), Pair(Word32(), Word32())))), p, s0, f0, s1,
      f1, s3, f3, true, true);
  }

  method EncodeLifecycle(out: Encoder, p: LifecycleTuple, l: Limits)
    requires out.Valid()
    modifies out
    ensures out.Valid() && Wrote(old(out.buffer), old(out.failed), out.buffer, out.failed, LifecycleRaw(l).write(p),
            Fits(p.1.1.1, l.maxStringBytes))
  {
    hide Identity, Word16, Word32, Word64, Signed, Flag, TextOf, Wrote, Pair, Iso, ActionC;
    ghost var s0, f0 := out.buffer, out.failed;
    out.Id128(p.0);
    ghost var s1, f1 := out.buffer, out.failed;
    out.U64(p.1.0);
    ghost var s2, f2 := out.buffer, out.failed;
    EncodeAction(out, p.1.1.0);
    ghost var s3, f3 := out.buffer, out.failed;
    out.Text(p.1.1.1, l.maxStringBytes);
    ghost var s4, f4 := out.buffer, out.failed;
    WrotePair(ActionC(), TextOf(l.maxStringBytes), p.1.1, s2, f2, s3, f3, s4, f4, true,
      Fits(p.1.1.1, l.maxStringBytes));
    WrotePair(Word64(), Pair(ActionC(), TextOf(l.maxStringBytes)), p.1, s1, f1, s2, f2, s4, f4, true,
      Fits(p.1.1.1, l.maxStringBytes));
    WrotePair(Identity(), Pair(Word64(), Pair(ActionC(), TextOf(l.maxStringBytes))), p, s0, f0, s1, f1, s4, f4, true,
      Fits(p.1.1.1, l.maxStringBytes));
  }

  method EncodeReincarnate(out: Encoder, p: ReincarnateTuple, l: Limits)
    requires out.Valid()
    modifies out
    ensures out.Valid() && Wrote(old(out.buffer), old(out.failed), out.buffer, out.failed, ReincarnateRaw(l).write(p),
            Fits(p.1.1.0, l.maxStringBytes) && Fits(p.1.1.1, l.maxStringBytes))
  {
    hide Identity, Word16, Word32, Word64, Signed, Flag, TextOf, Wrote, Pair, Iso;
    ghost var s0, f0 := out.buffer, out.failed;
    out.Id128(p.0);
    ghost var s1, f1 := out.buffer, out.failed;
    out.U64(p.1.0);
    ghost var s2, f2 := out.buffer, out.failed;
    out.Text(p.1.1.0, l.maxStringBytes);
    ghost var s3, f3 := out.buffer, out.failed;
    out.Text(p.1.1.1, l.maxStringBytes);
    ghost var s4, f4 := out.buffer, out.failed;
    WrotePair(TextOf(l.maxStringBytes), TextOf(l.maxStringBytes), p.1.1, s2, f2, s3, f3, s4, f4,
      Fits(p.1.1.0, l.maxStringBytes), Fits(p.1.1.1, l.maxStringBytes));
    WrotePair(Word64(), Pair(TextOf(l.maxStringBytes), TextOf(l.maxStringBytes)), p.1, s1, f1, s2, f2, s4, f4, true,
      Fits(p.1.1.0, l.maxStringBytes) && Fits(p.1.1.1, l.maxStringBytes));
    WrotePair(Identity(), Pair(Word64(), Pair(TextOf(l.maxStringBytes), TextOf(l.maxStringBytes))), p, s0, f0, s1, f1,
      s4, f4, true, Fits(p.1.1.0, l.maxStringBytes) && Fits(p.1.1.1, l.maxStringBytes));
  }

  method EncodeObjectCapability(out: Encoder, p: (Id, NominalCapability), l: Limits)
    requires out.Valid()
    modifies out
    ensures out.Valid() && Wrote(old(out.buffer), old(out.failed), out.buffer, out.failed,
            Pair(Identity(), NominalC(l)).write(p), Fits(p.1.code, l.maxCodeBytes))
  {
    hide Identity, Word16, Word32, Word64, Signed, Flag, TextOf, Wrote, Pair, Iso, NominalC;
    ghost var s0, f0 := out.buffer, out.failed;
    out.Id128(p.0);
    ghost var s1, f1 := out.buffer, out.failed;
    EncodeNominal(out, p.1, l);
    ghost var s2, f2 := out.buffer, out.failed;
    WrotePair(Identity(), NominalC(l), p, s0, f0, s1, f1, s2, f2, true, Fits(p.1.code, l.maxCodeBytes));
  }

  method EncodeCapabilityOfPort(out: Encoder, p: (PortRef, PortCapability), l: Limits)
    requires out.Valid()
    modifies out
    ensures out.Valid() && Wrote(old(out.buffer), old(out.failed), out.buffer, out.failed,
            Pair(PortRefC(), PortCapabilityC(l)).write(p), true)
  {
    hide Identity, Word16, Word32, Word64, Signed, Flag, TextOf, Wrote, Pair, Iso, PortRefC, PortCapabilityC;
    ghost var s0, f0 := out.buffer, out.failed;
    EncodePortRef(out, p.0);
    ghost var s1, f1 := out.buffer, out.failed;
    EncodePortCapability(out, p.1, l);
    ghost var s2, f2 := out.buffer, out.failed;
    WrotePair(PortRefC(), PortCapabilityC(l), p, s0, f0, s1, f1, s2, f2, true, true);
  }

  /** Every text of the payload is within its bound. */
  predicate PayloadTexts(p: Payload, l: Limits)
  {
    match p
    case RegisterObject(d) => ObjectTexts(d, l)
    case RegisterEndpoint(d) => Fits(d.name, l.maxStringBytes) && Fits(d.location, l.maxStringBytes)
    case PublishObjectCapability(_, c) => Fits(c.code, l.maxCodeBytes)
    case SetLifecycle(_, _, _, reason) => Fits(reason, l.maxStringBytes)
    case ReincarnateObject(_, _, serial, reason) => Fits(serial, l.maxStringBytes) && Fits(reason, l.maxStringBytes)
    case _ => true
  }

  method EncodePayload(out: Encoder, p: Payload, l: Limits)
    requires out.Valid()
    modifies out
    ensures out.Valid() && Wrote(old(out.buffer), old(out.failed), out.buffer, out.failed,
            PayloadC(l, KindOf(p)).write(p), PayloadTexts(p, l))
  {
    hide Wrote, Iso, Pair, ObjectC, EndpointC, AttachRaw, DetachRaw, MoveRaw, LifecycleRaw, ReincarnateRaw, NominalC,
         PortCapabilityC, PortRefC, Identity;
    match p
    case RegisterObject(d) =>
      EncodeObject(out, d, l);
      IsoWrite(ObjectC(l), ToRegisterObject, FromRegisterObject, p);
    case RegisterEndpoint(d) =>
      EncodeEndpoint(out, d, l);
      IsoWrite(EndpointC(l), ToRegisterEndpoint, FromRegisterEndpoint, p);
    case Attach(_, _, _, _) =>
      EncodeAttach(out, FromAttach(p));
      IsoWrite(AttachRaw(), ToAttach, FromAttach, p);
    case Detach(_, _, _, _, _) =>
      EncodeDetach(out, FromDetach(p));
      IsoWrite(DetachRaw(), ToDetach, FromDetach, p);
    case Move(_, _, _, _, _, _) =>
      EncodeMove(out, FromMove(p));
      IsoWrite(MoveRaw(), ToMove, FromMove, p);
    case PublishObjectCapability(_, _) =>
      EncodeObjectCapability(out, FromObjectCapability(p), l);
      IsoWrite(Pair(Identity(), NominalC(l)), ToObjectCapability, FromObjectCapability, p);
    case PublishPortCapability(_, _) =>
      EncodeCapabilityOfPort(out, FromPortCapability(p), l);
      IsoWrite(Pair(PortRefC(), PortCapabilityC(l)), ToPortCapability, FromPortCapability, p);
    case SetLifecycle(_, _, _, _) =>
      EncodeLifecycle(out, FromLifecycle(p), l);
      IsoWrite(LifecycleRaw(l), ToLifecycle, FromLifecycle, p);
    case ReincarnateObject(_, _, _, _) =>
      EncodeReincarnate(out, FromReincarnate(p), l);
      IsoWrite(ReincarnateRaw(l), ToReincarnate, FromReincarnate, p);
  }

  lemma DependWritten<A, B>(a: Codec<A>, f: A -> Codec<B>, v: (A, B))
    ensures Depend(a, f).write(v) == a.write(v.0) + f(v.0).write(v.1)
  {
  }

  /** encode_evidence() on an encoder: it fails exactly when a text is too long or the buffer would pass its ceiling. */
  method EncodeRecord(out: Encoder, e: Evidence, l: Limits)
    requires out.Valid()
    modifies out
    ensures out.Valid()
    ensures Wrote(old(out.buffer), old(out.failed), out.buffer, out.failed, EvidenceC(l).write(e),
                  Fits(e.header.detail, l.maxStringBytes) && PayloadTexts(e.payload, l))
  {
    hide Wrote, Iso, Pair, Depend, HeaderC, PayloadC, Word16, PayloadTexts;
    ghost var s0, f0 := out.buffer, out.failed;
    EncodeHeader(out, e.header, l);
    ghost var s1, f1 := out.buffer, out.failed;
    out.U16(KindOf(e.payload));
    ghost var s2, f2 := out.buffer, out.failed;
    EncodePayload(out, e.payload, l);
    var forms := (k: U16) => PayloadC(l, k);
    var p := EvidenceParts(e);
    WroteBoth(s1, f1, s2, f2, out.buffer, out.failed, Word16().write(p.1.0), PayloadC(l, p.1.0).write(p.1.1), true,
      PayloadTexts(e.payload, l));
    DependWritten(Word16(), forms, p.1);
    WrotePair(HeaderC(l), Depend(Word16(), forms), p, s0, f0, s1, f1, out.buffer, out.failed,
      Fits(e.header.detail, l.maxStringBytes), PayloadTexts(e.payload, l));
    IsoWrite(EvidenceRaw(l), MakeEvidence, EvidenceParts, e);
    assert EvidenceRaw(l) == Pair(HeaderC(l), Depend(Word16(), forms));
  }

  /** No text of a well-shaped record stops the encoder. */
  lemma ShapedTexts(e: Evidence, l: Limits)
    requires ValidShape(e, l)
    ensures Fits(e.header.detail, l.maxStringBytes) && PayloadTexts(e.payload, l)
  {
  }

  /** encode_evidence() into a fresh buffer. */
  method EncodeEvidence(e: Evidence, l: Limits) returns (r: Option<Bytes>)
    ensures r == if Fits(e.header.detail, l.maxStringBytes) && PayloadTexts(e.payload, l)
            && |EvidenceC(l).write(e)| <= ENCODER_CEILING
                 then Some(EvidenceC(l).write(e)) else None
  {
    hide EvidenceC, PayloadTexts;
    var out := new Encoder();
    EncodeRecord(out, e, l);
    assert [] + EvidenceC(l).write(e) == EvidenceC(l).write(e);
    r := if out.failed then None else Some(out.buffer);
  }

  /** Every text of the descriptor is within its bound. */
  predicate ObjectTexts(d: ObjectDescriptor, l: Limits)
  {
    Fits(d.physicalLabel, l.maxStringBytes) && Fits(d.serial, l.maxStringBytes) && Fits(d.location, l.maxStringBytes)
    && Fits(d.capability.code, l.maxCodeBytes)
  }
}
