/** Extension tables of StorageType (StorageTypeExtensions.cs): its own copy of the
    min/max tables and the C# keyword of each concrete storage type. */
module StorageTypeExtensions {
  import opened Wrappers
  import opened Integers
  import opened StorageTypes
  import StorageTypeValidator

  /** An `ArgumentException` with its message and parameter name. */
  datatype ArgumentException = ArgumentException(message: string, paramName: string)

  function GetMinSupportedValue(t: StorageType): (r: Int64)
    ensures r <= 0
  {
    match t
    case Implicit => IntMinValue
    case Byte => 0
    case Sbyte => -0x80
    case Short => -0x8000
    case Ushort => 0
    case Int => IntMinValue
    case Uint => 0
    case Long => LongMinValue
    case Ulong => 0
  }

  function GetMaxSupportedValue(t: StorageType): (r: Int64)
    ensures r >= 0x7F
  {
    match t
    case Implicit => IntMaxValue
    case Byte => 0xFF
    case Sbyte => 0x7F
    case Short => 0x7FFF
    case Ushort => 0xFFFF
    case Int => IntMaxValue
    case Uint => 0xFFFF_FFFF
    case Long => LongMaxValue
    case Ulong => LongMaxValue
  }

  /** This copy of the tables agrees with StorageTypeValidator's for every member,
      so Min <= Max here too and Ulong's maximum is long.MaxValue. */
  lemma TablesAgree(t: StorageType)
    ensures GetMinSupportedValue(t) == StorageTypeValidator.GetMinSupportedValue(t)
    ensures GetMaxSupportedValue(t) == StorageTypeValidator.GetMaxSupportedValue(t)
    ensures GetMinSupportedValue(t) <= GetMaxSupportedValue(t)
    ensures GetMaxSupportedValue(Ulong) == LongMaxValue
  {
  }

  /** `storageType.GetKeyword()`; Implicit has no keyword and throws. */
  function GetKeyword(t: StorageType): (r: Result<string, ArgumentException>)
    ensures r.Failure? <==> t == Implicit
    ensures r.Failure? ==> r.error.paramName == "storageType"
  {
    match t
    case Byte => Success("byte")
    case Sbyte => Success("sbyte")
    case Short => Success("short")
    case Ushort => Success("ushort")
    case Int => Success("int")
    case Uint => Success("uint")
    case Long => Success("long")
    case Ulong => Success("ulong")
    case Implicit =>
      Failure(ArgumentException("Storage-type: '" + Name(t) + "' has no keyword", "storageType"))
  }

  /** Distinct concrete storage types have distinct keywords. */
  lemma KeywordInjective(s: StorageType, t: StorageType)
    requires s != Implicit && t != Implicit
    ensures GetKeyword(s) == GetKeyword(t) <==> s == t
  {
  }

  /** The bit width of the C# integral type a keyword names, read off the keyword
      alone (0 for text that is not one of the eight keywords). */
  function KeywordWidth(keyword: string): nat {
    if keyword in {"byte", "sbyte"} then 8
    else if keyword in {"short", "ushort"} then 16
    else if keyword in {"int", "uint"} then 32
    else if keyword in {"long", "ulong"} then 64
    else 0
  }

  /** Each keyword names a C# type of the width the validator's range is built on
      (StorageTypeValidator.BoundsFollowWidth), so together with the signedness
      below the keyword fixes the range. */
  lemma KeywordMatchesWidth(t: StorageType)
    requires t != Implicit
    ensures KeywordWidth(GetKeyword(t).value) == StorageTypeValidator.Width(t)
  {
  }

  /** Signed types are exactly the keywords without a leading 'u' (byte being the
      unsigned exception). */
  lemma KeywordMatchesSignedness(t: StorageType)
    requires t != Implicit
    ensures StorageTypeValidator.IsSigned(t) <==>
      (GetKeyword(t).value[0] != 'u' && GetKeyword(t).value != "byte")
  {
  }
}
