/** The errors the enum builder raises (DuplicateEnumValueException.cs,
    EmptyEnumException.cs, and the ArgumentExceptions of EnumBuilder.cs), each with
    the properties it carries and the message it formats. */
module BuilderExceptions {
  import opened Integers
  import opened Decimal

  datatype BuilderException =
    | ArgumentException(message: string, paramName: string)
    | DuplicateEnumValueException(enumName: string, value: Int32)
    | EmptyEnumException(enumName: string)

  const DuplicatePrefix := "Enum '"
  const DuplicateInfix := "' has duplicated value: '"
  const EmptySuffix := "' has no values"

  /** The exception's `Message`. */
  function Message(e: BuilderException): string {
    match e
    case ArgumentException(message, _) => message
    case DuplicateEnumValueException(enumName, value) =>
      DuplicatePrefix + enumName + DuplicateInfix + IntToString(value) + "'"
    case EmptyEnumException(enumName) => DuplicatePrefix + enumName + EmptySuffix
  }

  /** Two duplicate-value messages about the same enum are equal only for the same value. */
  lemma DuplicateMessageNamesValue(enumName: string, a: Int32, b: Int32)
    ensures Message(DuplicateEnumValueException(enumName, a)) == Message(DuplicateEnumValueException(enumName, b))
      <==> a == b
  {
    var head := DuplicatePrefix + enumName + DuplicateInfix;
    var ma := Message(DuplicateEnumValueException(enumName, a));
    var mb := Message(DuplicateEnumValueException(enumName, b));
    if ma == mb {
      assert ma == head + (IntToString(a) + "'");
      assert mb == head + (IntToString(b) + "'");
      assert ma[|head|..] == IntToString(a) + "'";
      assert mb[|head|..] == IntToString(b) + "'";
      assert IntToString(a) == (IntToString(a) + "'")[..|IntToString(a) + "'"| - 1];
      assert IntToString(b) == (IntToString(b) + "'")[..|IntToString(b) + "'"| - 1];
      IntToStringInjective(a, b);
    }
  }

  /** An empty-enum message names its enum unambiguously. */
  lemma EmptyMessageNamesEnum(a: string, b: string)
    ensures Message(EmptyEnumException(a)) == Message(EmptyEnumException(b)) <==> a == b
  {
    var ma := Message(EmptyEnumException(a));
    var mb := Message(EmptyEnumException(b));
    if ma == mb {
      assert |a| == |b|;
      assert ma[|DuplicatePrefix|..|DuplicatePrefix| + |a|] == a;
      assert mb[|DuplicatePrefix|..|DuplicatePrefix| + |b|] == b;
    }
  }

  /** The messages open with the enum's name in quotes. */
  lemma MessageQuotesEnumName(e: BuilderException)
    requires !e.ArgumentException?
    ensures Message(e)[..|DuplicatePrefix| + |e.enumName|] == DuplicatePrefix + e.enumName
  {
  }
}
