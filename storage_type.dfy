/** The nine declared underlying enum storage types (StorageType.cs). A C# enum also
    holds any other number cast to it; those values are not modelled here. */
module StorageTypes {
  import opened Wrappers

  /** `Implicit` emits no explicit storage type; every other member names one C# integral type. */
  datatype StorageType = Implicit | Byte | Sbyte | Short | Ushort | Int | Uint | Long | Ulong

  /** The numeric value C# gives each member. */
  function Code(t: StorageType): (n: nat)
    ensures n <= 8
    ensures n == 0 <==> t == Implicit
  {
    match t
    case Implicit => 0
    case Byte => 1
    case Sbyte => 2
    case Short => 3
    case Ushort => 4
    case Int => 5
    case Uint => 6
    case Long => 7
    case Ulong => 8
  }

  /** The cast `(StorageType)n` onto the nine declared members. C# also accepts any
      other number, giving an undeclared value; the model has no such value. */
  function FromCode(n: int): (r: Option<StorageType>)
    ensures r.Some? <==> 0 <= n <= 8
  {
    if n == 0 then Some(Implicit)
    else if n == 1 then Some(Byte)
    else if n == 2 then Some(Sbyte)
    else if n == 3 then Some(Short)
    else if n == 4 then Some(Ushort)
    else if n == 5 then Some(Int)
    else if n == 6 then Some(Uint)
    else if n == 7 then Some(Long)
    else if n == 8 then Some(Ulong)
    else None
  }

  /** The codes are exactly 0 through 8, one per member: Code and FromCode are inverse. */
  lemma CodesAreABijection(t: StorageType, n: int)
    ensures FromCode(Code(t)) == Some(t)
    ensures FromCode(n).Some? ==> Code(FromCode(n).value) == n
  {
  }

  lemma CodeInjective(s: StorageType, t: StorageType)
    ensures Code(s) == Code(t) <==> s == t
  {
    CodesAreABijection(s, Code(s));
    CodesAreABijection(t, Code(t));
  }

  /** `storageType.ToString()`: the member's name. */
  function Name(t: StorageType): string {
    match t
    case Implicit => "Implicit"
    case Byte => "Byte"
    case Sbyte => "Sbyte"
    case Short => "Short"
    case Ushort => "Ushort"
    case Int => "Int"
    case Uint => "Uint"
    case Long => "Long"
    case Ulong => "Ulong"
  }
}
