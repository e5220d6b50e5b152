/** Identifier and namespace validation (IdentifierValidator.cs), following the
    identifier rule of the C# language standard (ECMA-334, section 6.4.3). Which
    Unicode general category a character belongs to is looked up in a category
    table that is passed in, standing for the .NET runtime's copy of the Unicode
    character database. */
module Identifiers {
  import opened Decimal

  /** The general categories of the Unicode Standard (section 4.5), in the form
      .NET's `UnicodeCategory` enumerates them. */
  datatype UnicodeCategory =
    | UppercaseLetter | LowercaseLetter | TitlecaseLetter | ModifierLetter | OtherLetter
    | NonSpacingMark | SpacingCombiningMark | EnclosingMark
    | DecimalDigitNumber | LetterNumber | OtherNumber
    | SpaceSeparator | LineSeparator | ParagraphSeparator
    | Control | Format | Surrogate | PrivateUse
    | ConnectorPunctuation | DashPunctuation | OpenPunctuation | ClosePunctuation
    | InitialQuotePunctuation | FinalQuotePunctuation | OtherPunctuation
    | MathSymbol | CurrencySymbol | ModifierSymbol | OtherSymbol
    | OtherNotAssigned

  /** `char.GetUnicodeCategory`: the category every character has. */
  type CategoryTable = char -> UnicodeCategory

  /** `char.IsLetter`: one of the five letter categories. */
  predicate IsLetter(ucd: CategoryTable, c: char) {
    ucd(c) in {UppercaseLetter, LowercaseLetter, TitlecaseLetter, ModifierLetter, OtherLetter}
  }

  /** The local `ValidateCharacter`: Lu, Ll, Lt, Lm, Lo, Nl, Mn, Mc, Nd, Pc or Cf. */
  predicate ValidateCharacter(ucd: CategoryTable, c: char) {
    ucd(c) in {
      UppercaseLetter, LowercaseLetter, TitlecaseLetter, ModifierLetter, OtherLetter,
      LetterNumber, NonSpacingMark, SpacingCombiningMark, DecimalDigitNumber,
      ConnectorPunctuation, Format}
  }

  /** `identifier.All(ValidateCharacter)`, element by element. */
  predicate AllCharacters(ucd: CategoryTable, s: string) {
    s == [] || (ValidateCharacter(ucd, s[0]) && AllCharacters(ucd, s[1..]))
  }

  /** `IdentifierValidator.Validate`. The empty string stands for both null and "". */
  predicate Validate(ucd: CategoryTable, identifier: string) {
    if identifier == [] then false
    else if !IsLetter(ucd, identifier[0]) && identifier[0] != '_' then false
    else AllCharacters(ucd, identifier)
  }

  lemma {:induction false} AllCharactersIff(ucd: CategoryTable, s: string)
    ensures AllCharacters(ucd, s) <==> forall i :: 0 <= i < |s| ==> ValidateCharacter(ucd, s[i])
  {
    if s != [] {
      AllCharactersIff(ucd, s[1..]);
      assert forall i :: 1 <= i < |s| ==> s[i] == s[1..][i - 1];
    }
  }

  /** An identifier is valid exactly when it is non-empty, starts with a letter
      or '_', and every character is in one of the eleven admitted categories. */
  lemma ValidateIff(ucd: CategoryTable, s: string)
    ensures Validate(ucd, s) <==>
      && |s| > 0
      && (IsLetter(ucd, s[0]) || s[0] == '_')
      && forall i :: 0 <= i < |s| ==> ValidateCharacter(ucd, s[i])
  {
    AllCharactersIff(ucd, s);
  }

  /** A space (category Zs) anywhere makes the whole string invalid. */
  lemma ContainsSpaceIsInvalid(ucd: CategoryTable, s: string, i: nat)
    requires ucd(' ') == SpaceSeparator
    requires i < |s| && s[i] == ' '
    ensures !Validate(ucd, s)
  {
    ValidateIff(ucd, s);
  }

  /** The categories the decimal suffixes rely on: '_' is connector punctuation
      and '0'..'9' are decimal digits. */
  predicate SuffixCharactersAdmitted(ucd: CategoryTable) {
    && ucd('_') == ConnectorPunctuation
    && forall c :: IsDigit(c) ==> ucd(c) == DecimalDigitNumber
  }

  /** `"<id>_<k>"`, the form the mapper gives a duplicated name. */
  function WithNumberSuffix(id: string, k: nat): (r: string)
    ensures |r| > |id| + 1 && r[..|id|] == id && r[|id|] == '_'
  {
    id + "_" + NatToString(k)
  }

  /** Appending '_' and decimal digits to a valid identifier keeps it valid. */
  lemma SuffixKeepsValid(ucd: CategoryTable, id: string, k: nat)
    requires SuffixCharactersAdmitted(ucd)
    requires Validate(ucd, id)
    ensures Validate(ucd, WithNumberSuffix(id, k))
  {
    var r := WithNumberSuffix(id, k);
    var digits := NatToString(k);
    ValidateIff(ucd, id);
    ValidateIff(ucd, r);
    forall i | 0 <= i < |r| ensures ValidateCharacter(ucd, r[i]) {
      if i < |id| {
        assert r[i] == id[i];
      } else if i == |id| {
        assert r[i] == '_';
      } else {
        assert r[i] == digits[i - |id| - 1];
      }
    }
  }

  // ----- Namespaces -----

  /** `s.Split('.')`: the dot-separated segments, empty ones included. */
  function Split(s: string): (segments: seq<string>)
    ensures |segments| >= 1
  {
    if s == [] then [[]]
    else
      var rest := Split(s[1..]);
      if s[0] == '.' then [[]] + rest else [[s[0]] + rest[0]] + rest[1..]
  }

  /** `string.Join(".", segments)`. */
  function Join(segments: seq<string>): string
    requires |segments| >= 1
  {
    if |segments| == 1 then segments[0] else segments[0] + "." + Join(segments[1..])
  }

  /** Splitting at the dots and joining with dots gives back the string. */
  lemma {:induction false} JoinSplit(s: string)
    ensures Join(Split(s)) == s
    ensures forall k :: 0 <= k < |Split(s)| ==> '.' !in Split(s)[k]
  {
    if s != [] {
      JoinSplit(s[1..]);
      var rest := Split(s[1..]);
      if s[0] == '.' {
        assert s == "." + s[1..];
      } else {
        if |rest| == 1 {
          assert Split(s) == [[s[0]] + rest[0]];
        } else {
          assert Split(s)[1..] == rest[1..];
        }
      }
    }
  }

  /** `IdentifierValidator.ValidateNamespace`, whose code is not modelled: assumed to
      accept exactly the strings whose dot-separated segments are valid identifiers. */
  predicate ValidateNamespace(ucd: CategoryTable, ns: string) {
    forall k :: 0 <= k < |Split(ns)| ==> Validate(ucd, Split(ns)[k])
  }

  lemma HeadMerge<T>(c: T, ra: seq<seq<T>>, sb: seq<seq<T>>)
    requires |ra| >= 1
    ensures |ra + sb| >= 1
    ensures [[c] + (ra + sb)[0]] + (ra + sb)[1..] == ([[c] + ra[0]] + ra[1..]) + sb
  {
    assert (ra + sb)[0] == ra[0];
    assert (ra + sb)[1..] == ra[1..] + sb;
  }

  /** Splitting at an added dot splits the two sides independently. */
  lemma {:induction false} SplitAtDot(a: string, b: string)
    ensures Split(a + "." + b) == Split(a) + Split(b)
  {
    var s := a + "." + b;
    if a == [] {
      assert s[0] == '.' && s[1..] == b;
    } else {
      var c, t := a[0], a[1..];
      SplitAtDot(t, b);
      assert s[0] == c && s[1..] == t + "." + b;
      if c != '.' {
        HeadMerge(c, Split(t), Split(b));
      }
    }
  }

  /** A namespace joined from two parts at a dot is valid iff both parts are. */
  lemma ValidateNamespaceAtDot(ucd: CategoryTable, a: string, b: string)
    ensures ValidateNamespace(ucd, a + "." + b) <==> ValidateNamespace(ucd, a) && ValidateNamespace(ucd, b)
  {
    SplitAtDot(a, b);
    var sa, sb := Split(a), Split(b);
    assert forall k :: 0 <= k < |sa| ==> (sa + sb)[k] == sa[k];
    assert forall k :: 0 <= k < |sb| ==> (sa + sb)[|sa| + k] == sb[k];
  }

  /** Neither the empty string nor a string with an empty segment is a namespace. */
  lemma EmptySegmentInvalid(ucd: CategoryTable, ns: string, k: nat)
    requires k < |Split(ns)| && Split(ns)[k] == []
    ensures !ValidateNamespace(ucd, ns)
  {
  }

  /** A namespace without dots is a single identifier. */
  lemma {:induction false} NamespaceWithoutDots(ucd: CategoryTable, s: string)
    requires '.' !in s
    ensures Split(s) == [s]
    ensures ValidateNamespace(ucd, s) <==> Validate(ucd, s)
  {
    if s != [] {
      NamespaceWithoutDots(ucd, s[1..]);
      assert [s[0]] + s[1..] == s;
    }
    assert Split(s)[0] == s;
  }

  // ----- The ASCII part of the Unicode character database -----

  /** General category of each ASCII character, per the Unicode character database. */
  function AsciiCategory(c: char): UnicodeCategory
    requires c < '\U{80}'
  {
    if 'A' <= c <= 'Z' then UppercaseLetter
    else if 'a' <= c <= 'z' then LowercaseLetter
    else if '0' <= c <= '9' then DecimalDigitNumber
    else if c < ' ' || c == '\U{7F}' then Control
    else if c == ' ' then SpaceSeparator
    else if c == '_' then ConnectorPunctuation
    else if c == '-' then DashPunctuation
    else if c in "([{" then OpenPunctuation
    else if c in ")]}" then ClosePunctuation
    else if c in "+<=>|~" then MathSymbol
    else if c == '$' then CurrencySymbol
    else if c in "^`" then ModifierSymbol
    else OtherPunctuation
  }

  /** The table classifies ASCII as the Unicode character database does. */
  predicate StandardAscii(ucd: CategoryTable) {
    forall c :: c < '\U{80}' ==> ucd(c) == AsciiCategory(c)
  }

  lemma StandardAsciiAdmitsSuffixes(ucd: CategoryTable)
    requires StandardAscii(ucd)
    ensures SuffixCharactersAdmitted(ucd)
  {
  }

  predicate IsAsciiWordChar(c: char) {
    'A' <= c <= 'Z' || 'a' <= c <= 'z' || c == '_' || IsDigit(c)
  }

  /** A string over ASCII letters, '_' and digits that does not start with a digit is valid. */
  lemma AsciiWordIsValid(ucd: CategoryTable, s: string)
    requires StandardAscii(ucd)
    requires |s| > 0 && !IsDigit(s[0])
    requires forall c :: c in s ==> IsAsciiWordChar(c)
    ensures Validate(ucd, s)
  {
    ValidateIff(ucd, s);
    forall i | 0 <= i < |s| ensures ValidateCharacter(ucd, s[i]) {
      assert s[i] in s;
      assert s[i] < '\U{80}';
    }
    assert s[0] in s;
  }

  /** A string with an ASCII character outside letters, '_' and digits is invalid. */
  lemma AsciiSymbolIsInvalid(ucd: CategoryTable, s: string, i: nat)
    requires StandardAscii(ucd)
    requires i < |s| && s[i] < '\U{80}'
    requires !IsAsciiWordChar(s[i])
    ensures !Validate(ucd, s)
  {
    ValidateIff(ucd, s);
  }

  /** A string starting with a digit is invalid. */
  lemma LeadingDigitIsInvalid(ucd: CategoryTable, s: string)
    requires StandardAscii(ucd)
    requires |s| > 0 && IsDigit(s[0])
    ensures !Validate(ucd, s)
  {
    assert s[0] < '\U{80}';
  }

  /** A namespace with a leading dot has an empty first segment. */
  lemma LeadingDotInvalid(ucd: CategoryTable, b: string)
    ensures !ValidateNamespace(ucd, "." + b)
  {
    SplitAtDot([], b);
    assert [] + "." + b == "." + b;
    EmptySegmentInvalid(ucd, "." + b, 0);
  }

  /** A namespace with a trailing dot has an empty last segment. */
  lemma TrailingDotInvalid(ucd: CategoryTable, a: string)
    ensures !ValidateNamespace(ucd, a + ".")
  {
    SplitAtDot(a, []);
    assert a + "." + [] == a + ".";
    EmptySegmentInvalid(ucd, a + ".", |Split(a)|);
  }

  /** Two dots in a row enclose an empty segment. */
  lemma DoubleDotInvalid(ucd: CategoryTable, a: string, b: string)
    ensures !ValidateNamespace(ucd, a + ".." + b)
  {
    SplitAtDot(a, "." + b);
    SplitAtDot([], b);
    assert a + "." + ("." + b) == a + ".." + b;
    assert [] + "." + b == "." + b;
    EmptySegmentInvalid(ucd, a + ".." + b, |Split(a)|);
  }

  /** The valid identifier examples of IdentifierValidatorTests. */
  lemma ValidIdentifierExamples(ucd: CategoryTable, s: string)
    requires StandardAscii(ucd)
    requires s in ["Identifer", "identifier", "_identifier", "_identifier_a", "IdentifierA", "IDENTIFIER"]
    ensures Validate(ucd, s)
  {
    AsciiWordIsValid(ucd, s);
  }

  /** The invalid identifier examples of IdentifierValidatorTests. */
  lemma InvalidIdentifierExamples(ucd: CategoryTable, s: string)
    requires StandardAscii(ucd)
    requires s in ["", " ", " identifier", "identifier ", "identifier a", "0identifier",
                   "@identifier", "!identifier", "$identifier", "%identifier", "identifier.a"]
    ensures !Validate(ucd, s)
  {
    if s == "0identifier" {
      LeadingDigitIsInvalid(ucd, s);
    } else if s != "" && s[0] != 'i' {
      AsciiSymbolIsInvalid(ucd, s, 0);
    } else if s != "" {
      AsciiSymbolIsInvalid(ucd, s, 10);
    }
  }

  /** The valid namespace examples of IdentifierValidatorTests. */
  lemma ValidNamespaceExamples(ucd: CategoryTable, s: string)
    requires StandardAscii(ucd)
    requires s in ["A", "A.B", "A.B.C"]
    ensures ValidateNamespace(ucd, s)
  {
    AsciiWordIsValid(ucd, "A");
    NamespaceWithoutDots(ucd, "A");
    if s != "A" {
      AsciiWordIsValid(ucd, "B");
      NamespaceWithoutDots(ucd, "B");
      if s == "A.B" {
        ValidateNamespaceAtDot(ucd, "A", "B");
        assert "A" + "." + "B" == s;
      } else {
        AsciiWordIsValid(ucd, "C");
        NamespaceWithoutDots(ucd, "C");
        ValidateNamespaceAtDot(ucd, "B", "C");
        ValidateNamespaceAtDot(ucd, "A", "B.C");
        assert "B" + "." + "C" == "B.C";
        assert "A" + "." + "B.C" == s;
      }
    }
  }

  /** The invalid namespace examples of IdentifierValidatorTests. */
  lemma InvalidNamespaceExamples(ucd: CategoryTable, s: string)
    requires StandardAscii(ucd)
    requires s in ["", " ", ".A", ".A.", "A.", "A..", "A..B", "A.B..C"]
    ensures !ValidateNamespace(ucd, s)
  {
    if s == "" {
      NamespaceWithoutDots(ucd, "");
    } else if s == " " {
      NamespaceWithoutDots(ucd, " ");
      AsciiSymbolIsInvalid(ucd, " ", 0);
    } else if s[0] == '.' {
      LeadingDotInvalid(ucd, s[1..]);
      assert s == "." + s[1..];
    } else if s == "A." {
      TrailingDotInvalid(ucd, "A");
      assert "A" + "." == s;
    } else if s == "A.B..C" {
      DoubleDotInvalid(ucd, "A.B", "C");
      assert "A.B" + ".." + "C" == s;
    } else {
      DoubleDotInvalid(ucd, "A", s[3..]);
      assert s == "A" + ".." + s[3..];
    }
  }
}
