/** Range checks of entry values against a storage type (StorageTypeValidator.cs). */
module StorageTypeValidator {
  import opened Integers
  import opened StorageTypes

  function GetMinSupportedValue(t: StorageType): (r: Int64)
    ensures r <= 0
    ensures r == 0 <==> t in {Byte, Ushort, Uint, Ulong}
  {
    match t
    case Implicit => IntMinValue
    case Byte => 0
    case Sbyte => -0x80
    case Short => -0x8000
    case Ushort => 0
    case Int => IntMinValue
    case Uint => 0
    case Long => LongMinValue
    case Ulong => 0
  }

  /** Ulong is capped at long.MaxValue: values are held as `long`s. */
  function GetMaxSupportedValue(t: StorageType): (r: Int64)
    ensures r >= 0x7F
  {
    match t
    case Implicit => IntMaxValue
    case Byte => 0xFF
    case Sbyte => 0x7F
    case Short => 0x7FFF
    case Ushort => 0xFFFF
    case Int => IntMaxValue
    case Uint => 0xFFFF_FFFF
    case Long => LongMaxValue
    case Ulong => LongMaxValue
  }

  /** `storageType.Validate(value)`: the value fits the storage type. */
  predicate Validate(t: StorageType, value: Int64) {
    value >= GetMinSupportedValue(t) && value <= GetMaxSupportedValue(t)
  }

  /** Bit width of the C# type a member names; Implicit counts as `int`. */
  function Width(t: StorageType): (w: nat)
    ensures w >= 8
  {
    match t
    case Byte | Sbyte => 8
    case Short | Ushort => 16
    case Implicit | Int | Uint => 32
    case Long | Ulong => 64
  }

  predicate IsSigned(t: StorageType) {
    t in {Implicit, Sbyte, Short, Int, Long}
  }

  /** Bits left for the magnitude once a signed type spends one on the sign. */
  function MagnitudeBits(t: StorageType): nat {
    Width(t) - 1
  }

  /** The bounds are the two's-complement (signed) or plain binary (unsigned)
      bounds of the member's width (Ulong's maximum is the exception, see below). */
  lemma BoundsFollowWidth(t: StorageType)
    ensures IsSigned(t) ==>
      GetMinSupportedValue(t) == 0 - Pow2(MagnitudeBits(t)) && GetMaxSupportedValue(t) == Pow2(MagnitudeBits(t)) - 1
    ensures !IsSigned(t) ==> GetMinSupportedValue(t) == 0
    ensures !IsSigned(t) && t != Ulong ==> GetMaxSupportedValue(t) == Pow2(Width(t)) - 1
  {
    match t
    case Byte | Sbyte => Pow2Byte();
    case Short | Ushort => Pow2Short();
    case Implicit | Int | Uint => Pow2Int();
    case Long => Pow2Long();
    case Ulong =>
  }

  /** Ulong's maximum stops at 2^63 - 1, below the 2^64 - 1 of its width. */
  lemma UlongMaxIsLongMax()
    ensures GetMaxSupportedValue(Ulong) == Pow2(63) - 1 < Pow2(Width(Ulong)) - 1
  {
    Pow2Long();
  }

  /** Exponents add under multiplication. */
  lemma {:induction false} Pow2Add(a: nat, b: nat)
    ensures Pow2(a + b) == Pow2(a) * Pow2(b)
  {
    if b > 0 {
      Pow2Add(a, b - 1);
    }
  }

  lemma Pow2Byte()
    ensures Pow2(7) == 0x80 && Pow2(8) == 0x100
  {
  }

  lemma Pow2Short()
    ensures Pow2(15) == 0x8000 && Pow2(16) == 0x1_0000
  {
    Pow2Byte();
    Pow2Add(8, 8);
  }

  lemma Pow2Int()
    ensures Pow2(31) == 0x8000_0000 && Pow2(32) == 0x1_0000_0000
  {
    Pow2Short();
    Pow2Add(16, 16);
  }

  lemma Pow2Long()
    ensures Pow2(63) == 0x8000_0000_0000_0000 && Pow2(64) == 0x1_0000_0000_0000_0000
  {
    Pow2Int();
    Pow2Add(32, 32);
  }

  /** Every range is non-empty and contains both its ends. */
  lemma BoundsAreAccepted(t: StorageType)
    ensures GetMinSupportedValue(t) <= GetMaxSupportedValue(t)
    ensures Validate(t, GetMinSupportedValue(t)) && Validate(t, GetMaxSupportedValue(t))
  {
  }

  /** Unsigned types reject every negative value. */
  lemma UnsignedRejectsNegatives(t: StorageType, v: Int64)
    requires t in {Byte, Ushort, Uint, Ulong} && v < 0
    ensures !Validate(t, v)
  {
  }

  /** Implicit accepts exactly what Int accepts. */
  lemma ImplicitIsInt(v: Int64)
    ensures Validate(Implicit, v) <==> Validate(Int, v)
  {
  }

  /** Ulong accepts exactly the non-negative longs. */
  lemma UlongIsNonNegativeLong(v: Int64)
    ensures Validate(Ulong, v) <==> v >= 0
  {
  }

  /** The ranges nest: Byte, Sbyte in Short; Short, Ushort in Int; Int, Uint in Long. */
  lemma RangesNest(v: Int64)
    ensures Validate(Byte, v) ==> Validate(Short, v)
    ensures Validate(Sbyte, v) ==> Validate(Short, v)
    ensures Validate(Short, v) ==> Validate(Int, v)
    ensures Validate(Ushort, v) ==> Validate(Int, v)
    ensures Validate(Int, v) ==> Validate(Long, v)
    ensures Validate(Uint, v) ==> Validate(Long, v)
    ensures Validate(Byte, v) ==> Validate(Ushort, v)
    ensures Validate(Ushort, v) ==> Validate(Uint, v)
    ensures Validate(Uint, v) ==> Validate(Ulong, v)
  {
  }

  /** Long accepts every long; long.MinValue is accepted by Long only and
      long.MaxValue by Long and Ulong only. */
  lemma LongExtremes(t: StorageType, v: Int64)
    ensures Validate(Long, v)
    ensures Validate(t, LongMinValue) <==> t == Long
    ensures Validate(t, LongMaxValue) <==> t in {Long, Ulong}
  {
  }
}
