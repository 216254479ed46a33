// The wire forms of identities, descriptors and evidence records.

module Wire {
  import opened Words
  import opened LittleEndian
  import opened Evidence
  import opened State
  import opened Codec

  // ---- Scalars ----

  function Clip(x: nat, bound: nat): (r: nat)
    requires bound > 0
    ensures r < bound
  {
    if x < bound then x else 0
  }

  function Byte(): Codec<U8> { Iso(Fixed(1), (x: nat) => Clip(x, 0x100) as U8, (x: U8) => x) }
  function Word16(): Codec<U16> { Iso(Fixed(2), (x: nat) => Clip(x, 0x1_0000) as U16, (x: U16) => x) }
  function Word32(): Codec<U32> { Iso(Fixed(4), (x: nat) => Clip(x, TWO_32) as U32, (x: U32) => x) }
  function Word64(): Codec<U64> { Iso(Fixed(8), (x: nat) => Clip(x, TWO_64) as U64, (x: U64) => x) }

  lemma ScalarsLawful()
    ensures Lawful(Byte()) && Lawful(Word16()) && Lawful(Word32()) && Lawful(Word64())
  {
    hide Lawful, LE, Nat;
    Pow256Values();
    FixedLawful(1);
    FixedLawful(2);
    FixedLawful(4);
    FixedLawful(8);
    IsoLawful(Fixed(1), (x: nat) => Clip(x, 0x100) as U8, (x: U8) => x);
    IsoLawful(Fixed(2), (x: nat) => Clip(x, 0x1_0000) as U16, (x: U16) => x);
    IsoLawful(Fixed(4), (x: nat) => Clip(x, TWO_32) as U32, (x: U32) => x);
    IsoLawful(Fixed(8), (x: nat) => Clip(x, TWO_64) as U64, (x: U64) => x);
  }

  /** Every value of a scalar type can be written and read. */
  lemma ScalarsTotal()
    ensures Total(Byte()) && Total(Word16()) && Total(Word32()) && Total(Word64())
  {
    Pow256Values();
  }

  /** Two's complement in 64 bits. */
  function Signed(): Codec<I64>
  {
    Iso(Word64(), (x: U64) => (if x < 0x8000_0000_0000_0000 then x else x - TWO_64) as I64,
      (x: I64) => (if x < 0 then x + TWO_64 else x) as U64)
  }

  function Flag(): Codec<bool>
  {
    Iso(Refine(Byte(), (x: U8) => x <= 1), (x: U8) => x == 1, (x: bool) => (if x then 1 else 0) as U8)
  }

  /** The high half, then the low half. */
  function Identity(): Codec<Id>
  {
    Iso(Pair(Word64(), Word64()), (p: (U64, U64)) => JoinHalves(p.0, p.1), (x: Id) => (HighHalf(x), LowHalf(x)))
  }

  function JoinHalves(hi: U64, lo: U64): Id { hi * TWO_64 + lo }
  function HighHalf(x: Id): U64 { x / TWO_64 }
  function LowHalf(x: Id): U64 { x % TWO_64 }

  lemma HalvesJoin(hi: U64, lo: U64)
    ensures HighHalf(JoinHalves(hi, lo)) == hi && LowHalf(JoinHalves(hi, lo)) == lo
  {
  }

  lemma SplitJoins(x: Id)
    ensures JoinHalves(HighHalf(x), LowHalf(x)) == x
  {
  }

  lemma SignedLawful()
    ensures Lawful(Signed()) && Total(Signed())
  {
    hide Lawful, Total;
    ScalarsLawful();
    ScalarsTotal();
    IsoTotal(Word64(), (x: U64) => (if x < 0x8000_0000_0000_0000 then x else x - TWO_64) as I64,
      (x: I64) => (if x < 0 then x + TWO_64 else x) as U64);
    IsoLawful(Word64(), (x: U64) => (if x < 0x8000_0000_0000_0000 then x else x - TWO_64) as I64,
      (x: I64) => (if x < 0 then x + TWO_64 else x) as U64);
  }

  lemma FlagLawful()
    ensures Lawful(Flag()) && Total(Flag())
  {
    hide Lawful;
    ScalarsLawful();
    ScalarsTotal();
    forall v: bool
      ensures Accepts(Flag(), v)
    {
      assert Accepts(Byte(), (if v then 1 else 0) as U8);
    }
    RefineLawful(Byte(), (x: U8) => x <= 1);
    IsoLawful(Refine(Byte(), (x: U8) => x <= 1), (x: U8) => x == 1, (x: bool) => (if x then 1 else 0) as U8);
  }

  lemma IdentityLawful()
    ensures Lawful(Identity()) && Total(Identity())
  {
    hide Lawful, Total, JoinHalves, HighHalf, LowHalf;
    ScalarsLawful();
    ScalarsTotal();
    PairLawful(Word64(), Word64());
    PairTotal(Word64(), Word64());
    forall x: Id
      ensures JoinHalves(HighHalf(x), LowHalf(x)) == x
    {
      SplitJoins(x);
    }
    IsoTotal(Pair(Word64(), Word64()), (p: (U64, U64)) => JoinHalves(p.0, p.1), (x: Id) => (HighHalf(x), LowHalf(x)));
    forall p: (U64, U64)
      ensures (HighHalf(JoinHalves(p.0, p.1)), LowHalf(JoinHalves(p.0, p.1))) == p
    {
      HalvesJoin(p.0, p.1);
    }
    IsoLawful(Pair(Word64(), Word64()), (p: (U64, U64)) => JoinHalves(p.0, p.1), (x: Id) => (HighHalf(x), LowHalf(x)));
  }

  // ---- Enumerations: one byte, in vocabulary ----

  function Small(max: U8): Codec<U8> { Refine(Byte(), (x: U8) => x <= max) }

  function ClassOf(x: U8): AuthorityClass
  {
    if x == 0 then Speculative else if x == 1 then Imported else if x == 2 then Observed else if x == 3 then Declared
      else Authoritative
  }

  function ActionOrdinal(a: LifecycleAction): U8
  {
    match a
    case Present => 0
    case Quarantined => 1
    case Removed => 2
    case Retired => 3
  }

  function ActionOf(x: U8): LifecycleAction
  {
    if x == 0 then Present else if x == 1 then Quarantined else if x == 2 then Removed else Retired
  }

  function Enum<T(==)>(max: U8, to: U8 -> T, from: T -> U8): Codec<T> { Iso(Small(max), to, from) }

  function ProvenanceC(): Codec<ProvenanceClass>
  {
    Enum(6, (x: U8) => Clip(x, 7) as ProvenanceClass, (x: ProvenanceClass) => x as U8)
  }
  function MediaC(): Codec<MediaClass> { Enum(8, (x: U8) => Clip(x, 9) as MediaClass, (x: MediaClass) => x as U8) }
  function ConnectorC(): Codec<ConnectorClass>
  {
    Enum(18, (x: U8) => Clip(x, 19) as ConnectorClass, (x: ConnectorClass) => x as U8)
  }
  function ObjectKindC(): Codec<ObjectKind> { Enum(8, (x: U8) => Clip(x, 9) as ObjectKind, (x: ObjectKind) => x as U8) }
  function EndpointKindC(): Codec<EndpointKind>
  {
    Enum(7, (x: U8) => Clip(x, 8) as EndpointKind, (x: EndpointKind) => x as U8)
  }
  function ClassC(): Codec<AuthorityClass> { Enum(4, (x: U8) => ClassOf(x), (c: AuthorityClass) => ClassOrdinal(c)) }
  function ActionC(): Codec<LifecycleAction>
  {
    Enum(3, (x: U8) => ActionOf(x), (a: LifecycleAction) => ActionOrdinal(a))
  }

  lemma SmallLawful(max: U8)
    ensures Lawful(Small(max)) && forall x: U8 :: x <= max ==> Accepts(Small(max), x)
  {
    hide Lawful;
    ScalarsLawful();
    ScalarsTotal();
    RefineLawful(Byte(), (x: U8) => x <= max);
    forall x: U8 | x <= max
      ensures Accepts(Small(max), x)
    {
      assert Accepts(Byte(), x);
    }
  }

  lemma EnumLawful<T(!new)>(max: U8, to: U8 -> T, from: T -> U8)
    requires forall v :: from(v) <= max && to(from(v)) == v
    requires forall x: U8 :: x <= max ==> from(to(x)) == x
    ensures Lawful(Enum(max, to, from)) && Total(Enum(max, to, from))
  {
    hide Lawful, Small;
    SmallLawful(max);
    SmallBound(max);
    IsoLawful(Small(max), to, from);
    forall v: T
      ensures Accepts(Enum(max, to, from), v)
    {
      assert Accepts(Small(max), from(v));
    }
  }

  lemma SmallBound(max: U8)
    ensures forall x: U8 :: Small(max).valid(x) ==> x <= max
  {
  }

  lemma KindsLawful()
    ensures Lawful(ProvenanceC()) && Lawful(MediaC()) && Lawful(ConnectorC())
    ensures Total(ProvenanceC()) && Total(MediaC()) && Total(ConnectorC())
  {
    hide Lawful, Total, Enum;
    EnumLawful(6, (x: U8) => Clip(x, 7) as ProvenanceClass, (x: ProvenanceClass) => x as U8);
    EnumLawful(8, (x: U8) => Clip(x, 9) as MediaClass, (x: MediaClass) => x as U8);
    EnumLawful(18, (x: U8) => Clip(x, 19) as ConnectorClass, (x: ConnectorClass) => x as U8);
  }

  lemma MoreKindsLawful()
    ensures Lawful(ObjectKindC()) && Lawful(EndpointKindC()) && Lawful(ClassC()) && Lawful(ActionC())
    ensures Total(ObjectKindC()) && Total(EndpointKindC()) && Total(ClassC()) && Total(ActionC())
  {
    hide Lawful, Total, Enum;
    EnumLawful(8, (x: U8) => Clip(x, 9) as ObjectKind, (x: ObjectKind) => x as U8);
    EnumLawful(7, (x: U8) => Clip(x, 8) as EndpointKind, (x: EndpointKind) => x as U8);
    EnumLawful(4, (x: U8) => ClassOf(x), (c: AuthorityClass) => ClassOrdinal(c));
    EnumLawful(3, (x: U8) => ActionOf(x), (a: LifecycleAction) => ActionOrdinal(a));
  }
}
