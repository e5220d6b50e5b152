# Enum generator: a verified model of its core

This project models the core of an enum generator that turns JSON into enum
source code. It covers the following components:

- **Identifier validation** (`Identifiers`). This is the C# identifier rule over
  Unicode general categories, plus the namespace rule that the exporters apply.
- **Storage types** (`StorageTypes`, `StorageTypeValidator`,
  `StorageTypeExtensions`). These are the nine storage types, their value ranges
  and their keywords.
- **The enum builder** (`Builder`, `BuilderExceptions`). The builder is a class
  with an append-only entry list whose values stay distinct. `Build` fails on an
  empty list and otherwise takes a snapshot.
- **The JSON mapper** (`Mapping`). It turns the nodes selected by a collection
  path into entries:
  - it skips nodes without a usable name;
  - it disambiguates repeated names with `_1`, `_2`, …;
  - an entry without a value is numbered by the count of entries so far;
  - failures after parsing are wrapped in a mapping failure.
- **The C# and F# exporters** (`CSharpExport`, `FSharpExport`, with
  `ExportCommon` and `CodeWriting`). They write lines into a code writer object,
  and each is proved equal to a function that gives the whole output.

Each core file is modelled in the source's own form:
- Validation, the storage tables, the exceptions, and the mapper's `ParseValue`
  and `ParseComment` are functions and predicates.
- The builder is a `class` with a `seq` field.
- `ParseName`'s disambiguation loop, `MapEnum`'s loop over the nodes, and the
  exporters' loops over the entries are methods with `while` loops.
- Each method is proved against a specification function. The properties
  promised by the source and its tests are lemmas about those functions.

Things that have no code in the model become parameters:
- The Unicode character database is a category table `ucd`. The test examples
  are proved for any table that classifies ASCII as the Unicode database does.
- `IdentifierCreator.TryCreateIdentifier` is a parameter.
- The JSON library (deserialisation and JPath selection) is a reader function.
  For each text and context it returns a parse failure, a `null` token, a path
  error, or the selected nodes. Each node is seen through its name, value and
  comment lookups.
- The generating assembly's name and version are a parameter.
- The F# literal suffix of each storage type is a parameter.

C#'s null string is modelled as the empty string wherever the source tests
`string.IsNullOrEmpty`. The code builder is modelled as a sequence of lines:
each line has an indentation depth, a prefix and a text, or is a blank line.
The text rendering of those lines is not modelled.

### Tests that disagree with the code

The model follows the code in each of these cases.

- **Empty mapping.** `src/Enum.Generator.Tests/Mapping/JsonMapperTests.cs:34-41`
  expects `[]` to map to an empty enum. The mapper calls `Build` on an empty
  builder, which raises `EmptyEnumException`, so the mapping fails with a mapping
  failure. See `MappingExamples.EmptyArrayFails`.
- **Invalid enum name.** The test at lines 20-24 of the same file expects
  "Invalid Enum Name" to be rejected. The builder does not validate enum names.
  The test passes only because its input `[]` fails through the same empty
  `Build`. `MappingExamples.EmptyArrayFails` covers any non-empty enum name.
- **Missing comments.** Lines 118-119 of the same file expect comments "This is A"
  and "This is B". The input holds no comments and the context has no comment
  path, so the entries have no comments. See
  `MappingExamples.EntriesWithoutNamesAreSkipped`.

### The two exporters' check order and the namespace rule

The F# exporter validates the namespace before the value ranges. The C# exporter
does the opposite. The model follows each file, and
`FSharpExport.ChecksInOppositeOrder` proves that the two orders are different.

Both exporters call `IdentifierValidator.ValidateNamespace`
(`src/EnumGenerator.Core/Exporter/CSharpExporter.cs:65`,
`src/EnumGenerator.Core/Exporter/FSharpExporter.cs:43`). Its code is not modelled.
The model defines it as "every dot-separated segment is a valid identifier"; see
"## Left out".

## Model

| member | source | states |
|---|---|---|
| Identifiers.Validate | src/Enum.Generator.Core/Utilities/IdentifierValidator.cs:15-27 | the definition of a valid identifier: non-empty, a letter or `_` first, every character admitted; `ValidateIff` states it outright |
| Identifiers.ValidateCharacter | src/Enum.Generator.Core/Utilities/IdentifierValidator.cs:28-45 | the eleven admitted Unicode categories; `AsciiWordIsValid`, `AsciiSymbolIsInvalid` and `ContainsSpaceIsInvalid` pin it on ASCII |
| Identifiers.IsLetter | src/Enum.Generator.Core/Utilities/IdentifierValidator.cs:22 | `char.IsLetter`: the five letter categories Lu, Ll, Lt, Lm, Lo; `LeadingDigitIsInvalid` shows a digit is not one |
| Identifiers.ValidateNamespace | src/EnumGenerator.Core/Exporter/CSharpExporter.cs:65 | the namespace rule both exporters call: every dot-separated segment is a valid identifier; `ValidateNamespaceAtDot`, `NamespaceWithoutDots` and the examples characterise it |
| Identifiers.ValidateIff | src/Enum.Generator.Core/Utilities/IdentifierValidator.cs:15-44 | an identifier is valid iff it is non-empty, its first character is a letter or `_`, and every character is in Lu, Ll, Lt, Lm, Lo, Nl, Mn, Mc, Nd, Pc or Cf |
| Identifiers.AllCharactersIff | src/Enum.Generator.Core/Utilities/IdentifierValidator.cs:26-44 | `All(ValidateCharacter)` holds iff every position passes the category check |
| Identifiers.ContainsSpaceIsInvalid | src/EnumGenerator.Tests/Utilities/IdentifierValidatorTests.cs:44-47 | a space (category Zs) anywhere in the string makes it invalid |
| Identifiers.WithNumberSuffix | src/Enum.Generator.Core/Mapping/JsonMapper.cs:150 | `<id>_<k>` starts with the identifier, followed by `_`, followed by at least one more character |
| Identifiers.SuffixKeepsValid | src/Enum.Generator.Core/Utilities/IdentifierValidator.cs:26-44 | appending `_` and decimal digits to a valid identifier keeps it valid, when `_` is Pc and the digits are Nd |
| Identifiers.StandardAsciiAdmitsSuffixes | src/Enum.Generator.Core/Utilities/IdentifierValidator.cs:42-43 | the standard ASCII table admits `_` and the digits |
| Identifiers.JoinSplit | src/EnumGenerator.Tests/Utilities/IdentifierValidatorTests.cs:56-72 | joining the dot-separated segments with dots gives back the namespace, and no segment contains a dot |
| Identifiers.SplitAtDot | src/EnumGenerator.Tests/Utilities/IdentifierValidatorTests.cs:56-72 | the segments of `a.b` are the segments of `a` followed by those of `b` |
| Identifiers.ValidateNamespaceAtDot | src/EnumGenerator.Tests/Utilities/IdentifierValidatorTests.cs:56-72 | `a.b` is a valid namespace iff both `a` and `b` are |
| Identifiers.EmptySegmentInvalid | src/EnumGenerator.Tests/Utilities/IdentifierValidatorTests.cs:64-71 | a namespace with an empty segment is invalid |
| Identifiers.NamespaceWithoutDots | src/EnumGenerator.Tests/Utilities/IdentifierValidatorTests.cs:59 | a dot-free namespace is valid iff it is a valid identifier |
| Identifiers.LeadingDotInvalid | src/EnumGenerator.Tests/Utilities/IdentifierValidatorTests.cs:66-67 | a namespace starting with a dot is invalid |
| Identifiers.TrailingDotInvalid | src/EnumGenerator.Tests/Utilities/IdentifierValidatorTests.cs:67-69 | a namespace ending with a dot is invalid |
| Identifiers.DoubleDotInvalid | src/EnumGenerator.Tests/Utilities/IdentifierValidatorTests.cs:69-71 | a namespace with two dots in a row is invalid |
| Identifiers.AsciiWordIsValid | src/Enum.Generator.Core/Utilities/IdentifierValidator.cs:22-44 | ASCII letters, `_` and digits, not starting with a digit, make a valid identifier |
| Identifiers.AsciiSymbolIsInvalid | src/Enum.Generator.Core/Utilities/IdentifierValidator.cs:26-44 | any other ASCII character, anywhere, makes the string invalid |
| Identifiers.LeadingDigitIsInvalid | src/Enum.Generator.Core/Utilities/IdentifierValidator.cs:22-23 | a string starting with a digit is invalid |
| Identifiers.ValidIdentifierExamples | src/EnumGenerator.Tests/Utilities/IdentifierValidatorTests.cs:35-40 | each valid identifier of the tests is valid |
| Identifiers.InvalidIdentifierExamples | src/EnumGenerator.Tests/Utilities/IdentifierValidatorTests.cs:43-53 | each invalid identifier of the tests, the empty string included, is invalid |
| Identifiers.ValidNamespaceExamples | src/EnumGenerator.Tests/Utilities/IdentifierValidatorTests.cs:59-61 | `A`, `A.B` and `A.B.C` are valid namespaces |
| Identifiers.InvalidNamespaceExamples | src/EnumGenerator.Tests/Utilities/IdentifierValidatorTests.cs:64-71 | each invalid namespace of the tests is invalid |
| StorageTypes.Code | src/EnumGenerator.Core/Exporter/StorageType.cs:6-52 | codes lie in 0..8, and only Implicit has code 0 |
| StorageTypes.FromCode | src/EnumGenerator.Core/Exporter/StorageType.cs:6-52 | a code names a member iff it lies in 0..8 |
| StorageTypes.CodesAreABijection | src/EnumGenerator.Core/Exporter/StorageType.cs:11-51 | code and cast are inverse: exactly nine members with codes 0 through 8 |
| StorageTypes.CodeInjective | src/EnumGenerator.Core/Exporter/StorageType.cs:11-51 | distinct members have distinct codes |
| StorageTypeValidator.Validate | src/EnumGenerator.Core/Exporter/StorageTypeValidator.cs:20-22 | a value is accepted iff it lies between the type's minimum and maximum; `BoundsFollowWidth`, `BoundsAreAccepted` and `RangesNest` state what that admits |
| StorageTypeValidator.GetMinSupportedValue | src/EnumGenerator.Core/Exporter/StorageTypeValidator.cs:29-54 | every minimum is at most 0, and it is 0 exactly for Byte, Ushort, Uint and Ulong |
| StorageTypeValidator.GetMaxSupportedValue | src/EnumGenerator.Core/Exporter/StorageTypeValidator.cs:65-92 | every maximum is at least sbyte.MaxValue |
| StorageTypeValidator.BoundsFollowWidth | src/EnumGenerator.Core/Exporter/StorageTypeValidator.cs:29-91 | the bounds are the two's-complement bounds of the member's width for signed types, and 0 to 2^w-1 for unsigned types other than Ulong |
| StorageTypeValidator.UlongMaxIsLongMax | src/EnumGenerator.Core/Exporter/StorageTypeValidator.cs:83-88 | Ulong's maximum is 2^63-1, below 2^64-1 |
| StorageTypeValidator.BoundsAreAccepted | src/EnumGenerator.Tests/Exporter/StorageTypeValidatorTests.cs:24-43 | every range is non-empty and accepts both of its ends |
| StorageTypeValidator.UnsignedRejectsNegatives | src/EnumGenerator.Core/Exporter/StorageTypeValidator.cs:35-50 | Byte, Ushort, Uint and Ulong reject every negative value |
| StorageTypeValidator.ImplicitIsInt | src/EnumGenerator.Core/Exporter/StorageTypeValidator.cs:33-80 | Implicit accepts exactly what Int accepts |
| StorageTypeValidator.UlongIsNonNegativeLong | src/EnumGenerator.Core/Exporter/StorageTypeValidator.cs:49-88 | Ulong accepts exactly the non-negative longs |
| StorageTypeValidator.RangesNest | src/EnumGenerator.Core/Exporter/StorageTypeValidator.cs:29-91 | Byte, Sbyte ⊆ Short ⊆ Int ⊆ Long; Ushort ⊆ Int; Uint ⊆ Long; Byte ⊆ Ushort ⊆ Uint ⊆ Ulong |
| StorageTypeValidator.LongExtremes | src/EnumGenerator.Tests/Exporter/StorageTypeValidatorTests.cs:46-62 | long.MinValue is accepted by Long only, and long.MaxValue by Long and Ulong only |
| StorageTypeExtensions.GetMinSupportedValue | src/EnumGenerator.Core/Exporter/StorageTypeExtensions.cs:15-40 | every minimum is at most 0 |
| StorageTypeExtensions.GetMaxSupportedValue | src/EnumGenerator.Core/Exporter/StorageTypeExtensions.cs:51-78 | every maximum is at least sbyte.MaxValue |
| StorageTypeExtensions.TablesAgree | src/EnumGenerator.Core/Exporter/StorageTypeExtensions.cs:15-78 | both tables equal the validator's for every member, so Min ≤ Max and Ulong's maximum is long.MaxValue |
| StorageTypeExtensions.GetKeyword | src/EnumGenerator.Core/Exporter/StorageTypeExtensions.cs:85-108 | among the nine declared members, only Implicit raises an argument error, on parameter `storageType` |
| StorageTypeExtensions.KeywordInjective | src/EnumGenerator.Core/Exporter/StorageTypeExtensions.cs:89-104 | distinct concrete types have distinct keywords |
| StorageTypeExtensions.KeywordMatchesSignedness | src/EnumGenerator.Core/Exporter/StorageTypeExtensions.cs:85-104 | a type is signed iff its keyword neither starts with `u` nor is `byte` |
| StorageTypeExtensions.KeywordMatchesWidth | src/EnumGenerator.Core/Exporter/StorageTypeExtensions.cs:89-104 | the bit width named by each keyword, read from a separate keyword table, equals the width the validator's range is built on; with the signedness, each keyword names the C# type whose range the validator uses |
| Decimal.NatToStringRoundTrip | src/EnumGenerator.Core/Exporter/CSharpExporter.cs:94 | reading back the base-10 digits gives the number |
| Decimal.IntToStringInjective | src/EnumGenerator.Core/Exporter/CSharpExporter.cs:94 | distinct integers have distinct base-10 spellings |
| Definitions.IndexOfName | src/Enum.Generator.Tests/Builder/EnumBuilderTests.cs:36-37 | finds the first entry with the name, and nothing iff no entry has it |
| Definitions.IndexOfValue | src/Enum.Generator.Tests/Builder/EnumBuilderTests.cs:39-40 | finds the first entry with the value, and nothing iff no entry has it |
| Definitions.TryGetNameFinds | src/Enum.Generator.Tests/Builder/EnumBuilderTests.cs:44-52 | with distinct values, `TryGetName(v)` yields `n` iff some entry is (n, v) |
| Definitions.TryGetValueFinds | src/Enum.Generator.Tests/Builder/EnumBuilderTests.cs:54-63 | with distinct names, `TryGetValue(n)` yields `v` iff some entry is (n, v) |
| Definitions.LookupsAgree | src/Enum.Generator.Tests/Builder/EnumBuilderTests.cs:44-63 | the value found for a name leads back to that name |
| BuilderExceptions.Message | src/Enum.Generator.Core/Builder/Exceptions/DuplicateEnumValueException.cs:16 | the two messages (this line and EmptyEnumException.cs:15); `DuplicateMessageNamesValue`, `EmptyMessageNamesEnum` and `MessageQuotesEnumName` state what they carry |
| BuilderExceptions.DuplicateMessageNamesValue | src/Enum.Generator.Core/Builder/Exceptions/DuplicateEnumValueException.cs:15-20 | two duplicate-value messages for one enum are equal iff the values are |
| BuilderExceptions.EmptyMessageNamesEnum | src/Enum.Generator.Core/Builder/Exceptions/EmptyEnumException.cs:14-18 | two empty-enum messages are equal iff the enum names are |
| BuilderExceptions.MessageQuotesEnumName | src/Enum.Generator.Core/Builder/Exceptions/DuplicateEnumValueException.cs:16 | both messages start with `Enum '<enumName>` |
| Builder.Push | src/Enum.Generator.Core/Builder/EnumBuilder.cs:43-52 | the push on entry values: the empty-name check, then the duplicate-value check, then an append; `PushKeepsWellFormed` and `PushAllSucceeds` state its effect |
| Builder.BuildResult | src/Enum.Generator.Core/Builder/EnumBuilder.cs:61-67 | `Build` on entry values: EmptyEnumException for no entries, otherwise the snapshot; `EnumBuilder.Build` is proved against it |
| Builder.EnumBuilder.EntryCount | src/Enum.Generator.Core/Mapping/JsonMapper.cs:165 | the number of entries, the fallback value of `ParseValue`; `ImplicitValuesAreIndices` shows what it gives |
| Builder.PushKeepsWellFormed | src/Enum.Generator.Core/Builder/EnumBuilder.cs:43-52 | a push succeeds iff the name is non-empty and the value is new; it then appends exactly one entry, keeps the earlier ones and keeps values distinct |
| Builder.EnumBuilder.constructor | src/Enum.Generator.Core/Builder/EnumBuilder.cs:21-27 | a new builder has the name, no entries and no comment |
| Builder.EnumBuilder.Create | src/Enum.Generator.Core/Builder/EnumBuilder.cs:21-26 | fails with the argument error iff the name is empty; any other name is accepted without validation |
| Builder.EnumBuilder.SetComment | src/Enum.Generator.Core/Builder/EnumBuilder.cs:32 | sets the comment and leaves the entries alone |
| Builder.EnumBuilder.HasEntry | src/Enum.Generator.Core/Mapping/JsonMapper.cs:147 | true iff some entry has the name |
| Builder.EnumBuilder.PushEntry | src/Enum.Generator.Core/Builder/EnumBuilder.cs:43-52 | an empty name raises an argument error, and a present value raises DuplicateEnumValueException; both leave the entries unchanged; otherwise exactly one entry is appended |
| Builder.EnumBuilder.Build | src/Enum.Generator.Core/Builder/EnumBuilder.cs:61-67 | fails with EmptyEnumException iff there are no entries; otherwise a snapshot of name, entries and comment, whose values are distinct |
| Builder.PushAllSucceeds | src/Enum.Generator.Core/Builder/EnumBuilder.cs:43-52 | a series of pushes succeeds iff every name is non-empty and all values are distinct; the entries are then the requests, in order |
| Builder.BuiltDefinitionHasPushedEntries | src/Enum.Generator.Tests/Builder/EnumBuilderTests.cs:29-76 | every pushed name and value is found; each value leads to its name; a name leads to the value of the first request carrying it; a value or a name never pushed is not found |
| Mapping.Unduplicated | src/Enum.Generator.Core/Mapping/JsonMapper.cs:144-153 | the first of `id`, `id_1`, `id_2`, … that no entry holds; `UnduplicatedIsFirstUnused` states it |
| Mapping.ChosenName | src/Enum.Generator.Core/Mapping/JsonMapper.cs:125-154 | `ParseName` on values: a fault fails, a node without a usable name gives "", otherwise `Unduplicated`; `ParseName` is proved against it |
| Mapping.MapAll | src/Enum.Generator.Core/Mapping/JsonMapper.cs:85-86 | the `foreach` on values: one `MapEntryStep` per candidate, stopping at the first failure; `MapAllSucceeds` and `MapAllAppends` state its outcome |
| Mapping.MapTokenResult | src/Enum.Generator.Core/Mapping/JsonMapper.cs:60-96 | the private `MapEnum` on values; `MappingSucceeds` and `NothingAcceptedFails` state its outcome |
| Mapping.MapEnumResult | src/Enum.Generator.Core/Mapping/JsonMapper.cs:33-58 | the public `MapEnum` on values; `FailuresAfterParsingAreWrapped` and `MappingSucceeds` state its outcome |
| Mapping.Suffixed | src/Enum.Generator.Core/Mapping/JsonMapper.cs:145-150 | each name tried extends the identifier and equals it only at step 0 |
| Mapping.SuffixedInjective | src/Enum.Generator.Core/Mapping/JsonMapper.cs:150 | different steps try different names |
| Mapping.SuffixSetSize | src/Enum.Generator.Core/Mapping/JsonMapper.cs:145-151 | the first k names tried are k distinct names |
| Mapping.SuffixPigeonhole | src/Enum.Generator.Core/Mapping/JsonMapper.cs:147-151 | if the first k names tried are all taken, at least k names are taken |
| Mapping.DisambiguationIndex | src/Enum.Generator.Core/Mapping/JsonMapper.cs:145-153 | the loop stops at an unused name after all earlier names turned out used; the pigeonhole bound proves that it terminates |
| Mapping.Names | src/Enum.Generator.Core/Mapping/JsonMapper.cs:147 | the set of names is exactly the names some entry has |
| Mapping.UnduplicatedIsFirstUnused | src/Enum.Generator.Core/Mapping/JsonMapper.cs:144-153 | the chosen name is unused, and every name tried before it is used |
| Mapping.SuffixedKeepsValid | src/Enum.Generator.Core/Mapping/JsonMapper.cs:138-153 | every name tried for a valid identifier is valid |
| Mapping.ParseValue | src/Enum.Generator.Core/Mapping/JsonMapper.cs:156-166 | raises only when a set path meets a faulting token; a value other than the entry count comes from a set path's token |
| Mapping.ParseComment | src/Enum.Generator.Core/Mapping/JsonMapper.cs:168-174 | raises only when a set path meets a faulting token; a comment comes only from a set path's token |
| Mapping.MapEntryStep | src/Enum.Generator.Core/Mapping/JsonMapper.cs:98-123 | a step adds at most one entry and keeps the earlier ones |
| Mapping.Filter | src/Enum.Generator.Core/Mapping/JsonMapper.cs:107-112 | the kept candidates are accepted ones, and there are no more of them than candidates |
| Mapping.MapEntryStepResult | src/Enum.Generator.Core/Mapping/JsonMapper.cs:98-123 | a step fails iff the library faults or an accepted candidate's value is taken; a skipped candidate changes nothing; an accepted one appends a fresh name with its value and comment, keeping values and names distinct |
| Mapping.MapAllSucceeds | src/Enum.Generator.Core/Mapping/JsonMapper.cs:85-86 | the loop succeeds iff no candidate faults and the values planned for the accepted candidates are distinct from each other and from the existing ones |
| Mapping.MapAllAppends | src/Enum.Generator.Core/Mapping/JsonMapper.cs:85-123 | a successful loop appends one entry per accepted candidate, in order, named after its identifier, with its value and comment; names stay distinct |
| Mapping.ParseName | src/Enum.Generator.Core/Mapping/JsonMapper.cs:125-154 | the `while` loop returns the chosen name (empty for a skipped node) |
| Mapping.MapEntry | src/Enum.Generator.Core/Mapping/JsonMapper.cs:98-123 | changes the builder as the step function says and keeps its invariant |
| Mapping.MapCandidates | src/Enum.Generator.Core/Mapping/JsonMapper.cs:85-86 | the `foreach` over the candidates leaves the builder holding what the mapping of the whole list gives, or fails with its error |
| Mapping.MapToken | src/Enum.Generator.Core/Mapping/JsonMapper.cs:60-96 | the private `MapEnum` returns what the mapping function gives for the token |
| Mapping.MapEnum | src/Enum.Generator.Core/Mapping/JsonMapper.cs:33-58 | the public `MapEnum` returns what the mapping function gives for the text |
| Mapping.FailuresAfterParsingAreWrapped | src/Enum.Generator.Core/Mapping/JsonMapper.cs:39-95 | a failure is unwrapped iff it is an argument check, a parse failure or a null token; every other failure is a mapping failure |
| Mapping.TokenMappingSucceeds | src/Enum.Generator.Core/Mapping/JsonMapper.cs:73-95 | mapping a selected token succeeds iff no node faults, at least one node is accepted, and the planned values are pairwise distinct |
| Mapping.TokenMappingDefinition | src/Enum.Generator.Core/Mapping/JsonMapper.cs:73-95 | a successful token mapping yields the enum's name and comment and one well-formed, distinctly named entry per accepted node, in node order |
| Mapping.MappingSucceeds | src/Enum.Generator.Core/Mapping/JsonMapper.cs:73-95 | mapping selected nodes succeeds iff none faults, at least one is accepted, and the planned values are distinct; the definition then has the enum's name and comment and one entry per accepted node, in order |
| Mapping.ImplicitValuesAreIndices | src/Enum.Generator.Core/Mapping/JsonMapper.cs:156-166 | without a value path the accepted nodes get 0, 1, 2, …, all distinct |
| Mapping.NothingAcceptedFails | src/Enum.Generator.Core/Mapping/JsonMapper.cs:78-94 | a selection with no accepted node, whether empty or not, fails with the wrapped EmptyEnumException |
| Mapping.MappedNamesAreValid | src/Enum.Generator.Core/Mapping/JsonMapper.cs:138-153 | if the creator yields valid identifiers, every mapped name is valid |
| MappingExamples.InvalidJsonFails | src/Enum.Generator.Tests/Mapping/JsonMapperTests.cs:12-17 | unparsable text fails with JsonParsingFailure, unwrapped |
| MappingExamples.InvalidCollectionPathFails | src/Enum.Generator.Tests/Mapping/JsonMapperTests.cs:26-31 | a malformed collection path fails with a wrapped library fault |
| MappingExamples.EmptyArrayFails | src/Enum.Generator.Tests/Mapping/JsonMapperTests.cs:19-41 | `[]` fails with the wrapped EmptyEnumException for any enum name |
| MappingExamples.BasicEnumIsMapped | src/Enum.Generator.Tests/Mapping/JsonMapperTests.cs:43-58 | nodes A, B, C without values become A = 0, B = 1, C = 2 |
| MappingExamples.DuplicateNameIsSuffixed | src/Enum.Generator.Core/Mapping/JsonMapper.cs:144-153 | a second A becomes `A_1` |
| MappingExamples.ExplicitValuesAreRespected | src/Enum.Generator.Tests/Mapping/JsonMapperTests.cs:60-75 | values come from the value path |
| MappingExamples.CommentsAreParsed | src/Enum.Generator.Tests/Mapping/JsonMapperTests.cs:77-92 | comments come from the comment path |
| MappingExamples.DuplicateValuesFail | src/Enum.Generator.Tests/Mapping/JsonMapperTests.cs:94-104 | two nodes with value 1 fail with the builder's DuplicateEnumValueException |
| MappingExamples.EntriesWithoutNamesAreSkipped | src/Enum.Generator.Tests/Mapping/JsonMapperTests.cs:106-120 | a node without a name is skipped, and the entries get no comments |
| CodeWriting.CollapseNewlines | src/EnumGenerator.Core/Exporter/CSharpExporter.cs:118 | the regex replacement of newline runs by a space; `CollapseRun`, `CollapsedHasNoNewlines`, `CollapseKeepsSingleLines` and `CollapseIdempotent` state it |
| CodeWriting.CollapsedHasNoNewlines | src/EnumGenerator.Core/Exporter/CSharpExporter.cs:117-118 | the collapsed summary text contains no `\n` or `\r` |
| CodeWriting.CollapseKeepsSingleLines | src/EnumGenerator.Core/Exporter/CSharpExporter.cs:118 | text without newlines is unchanged |
| CodeWriting.CollapseIdempotent | src/EnumGenerator.Core/Exporter/CSharpExporter.cs:118 | collapsing twice is the same as collapsing once |
| CodeWriting.CollapseRun | src/EnumGenerator.Core/Exporter/CSharpExporter.cs:118 | each maximal run of newlines becomes exactly one space |
| ExportCommon.BoundsError | src/EnumGenerator.Core/Exporter/CSharpExporter.cs:43-44 | the range check's error: the first value the storage type rejects; `OutOfRangeReportedFirst` and `BoundsErrorOnlyFromValues` state it |
| ExportCommon.HeaderLines | src/EnumGenerator.Core/Exporter/CSharpExporter.cs:125-133 | the five header lines; `AddHeader` is proved against it and `HeaderIffRequested` uses it |
| ExportCommon.SummaryLines | src/EnumGenerator.Core/Exporter/CSharpExporter.cs:112-123 | the three summary lines; `SummaryIsSingleLine` states their shape |
| ExportCommon.FirstOutOfBounds | src/EnumGenerator.Core/Exporter/CSharpExporter.cs:43-44 | finds the first entry whose value the storage type rejects, and nothing iff all values are accepted |
| ExportCommon.CheckBounds | src/EnumGenerator.Core/Exporter/CSharpExporter.cs:43-44 | the loop raises for the first rejected value and for no other |
| ExportCommon.SummaryIsSingleLine | src/EnumGenerator.Core/Exporter/CSharpExporter.cs:112-123 | a summary is three lines, and its text line holds no newline |
| ExportCommon.AddHeader | src/EnumGenerator.Core/Exporter/CSharpExporter.cs:125-133 | writes the five header lines with the assembly's name and version (same at FSharpExporter.cs:99-107) |
| ExportCommon.AddSummary | src/EnumGenerator.Core/Exporter/CSharpExporter.cs:112-123 | writes the three summary lines around the collapsed text (same at FSharpExporter.cs:86-97) |
| ExportCommon.BoundsErrorOnlyFromValues | src/EnumGenerator.Core/Exporter/CSharpExporter.cs:43-44 | when two storage types accept every value, neither raises |
| ExportCommon.BoundsErrorDependsOnValues | src/EnumGenerator.Core/Exporter/FSharpExporter.cs:46-47 | the range check depends only on the values |
| CSharpExport.CSharpOutput | src/EnumGenerator.Core/Exporter/CSharpExporter.cs:33-58 | the whole C# export on values; `Export` is proved against it, and `OutOfRangeReportedFirst`, `NamespaceCheckedOnlyWhenGiven`, `BracesBalance` and `StorageOnlyChecksRanges` state its properties |
| CSharpExport.EnumLines | src/EnumGenerator.Core/Exporter/CSharpExporter.cs:76-98 | the enum's lines; `AddEnum` is proved against it, and `EnumScopesBalance` and `EnumSummaryIffComment` state its properties |
| CSharpExport.EntrySection | src/EnumGenerator.Core/Exporter/CSharpExporter.cs:85-95 | the entry blocks with one blank line between neighbours; `EntrySectionBlanks`, `EntrySectionEnds`, `EntrySectionDepth` and `EntriesInOrder` state its properties |
| CSharpExport.StartScope | src/EnumGenerator.Core/Exporter/CSharpExporter.cs:100-104 | writes `{` and indents one level |
| CSharpExport.EndScope | src/EnumGenerator.Core/Exporter/CSharpExporter.cs:106-110 | unindents one level and writes `}` |
| CSharpExport.AddEntry | src/EnumGenerator.Core/Exporter/CSharpExporter.cs:88-94 | writes a blank line unless the entry is first, then the entry's lines |
| CSharpExport.AddEntries | src/EnumGenerator.Core/Exporter/CSharpExporter.cs:85-95 | the `first`-flag loop writes the entry section |
| CSharpExport.AddEnumOpening | src/EnumGenerator.Core/Exporter/CSharpExporter.cs:78-83 | writes the summary if any, the attribute, `public enum <Identifier>` and `{` |
| CSharpExport.AddEnum | src/EnumGenerator.Core/Exporter/CSharpExporter.cs:76-98 | writes the enum's lines and ends at the depth it started at |
| CSharpExport.AddNamespaceOpening | src/EnumGenerator.Core/Exporter/CSharpExporter.cs:68-69 | writes `namespace <ns>` and opens a scope |
| CSharpExport.AddNamespace | src/EnumGenerator.Core/Exporter/CSharpExporter.cs:60-74 | fails with InvalidNamespace, writing nothing, iff the namespace is invalid; otherwise writes the namespace block around the enum |
| CSharpExport.Export | src/EnumGenerator.Core/Exporter/CSharpExporter.cs:33-58 | returns the C# output function's result |
| CSharpExport.OutOfRangeReportedFirst | src/EnumGenerator.Core/Exporter/CSharpExporter.cs:43-44 | any out-of-range value fails the export, whatever the namespace, and the error names the first such value |
| CSharpExport.NamespaceCheckedOnlyWhenGiven | src/EnumGenerator.Core/Exporter/CSharpExporter.cs:52-66 | with all values in range, the export fails iff the namespace is non-empty and invalid, and then with InvalidNamespace |
| CSharpExport.StorageOnlyChecksRanges | src/EnumGenerator.Core/Exporter/CSharpExporter.cs:43-82 | two storage types that accept every value give the same output; the storage type appears nowhere in the text |
| CSharpExport.EntryLinesLayout | src/EnumGenerator.Core/Exporter/CSharpExporter.cs:92-94 | an entry's lines are non-blank, all at one depth, and end with its declaration |
| CSharpExport.EntrySectionBlanks | src/EnumGenerator.Core/Exporter/CSharpExporter.cs:85-90 | n entries are separated by exactly n-1 blank lines |
| CSharpExport.EntrySectionEnds | src/EnumGenerator.Core/Exporter/CSharpExporter.cs:85-95 | no blank line precedes the first entry or follows the last declaration |
| CSharpExport.EntrySectionDepth | src/EnumGenerator.Core/Exporter/CSharpExporter.cs:83-95 | every non-blank line of the section sits at the section's depth, one deeper than `public enum` |
| CSharpExport.EntriesInOrder | src/EnumGenerator.Core/Exporter/CSharpExporter.cs:86-94 | the section for the first k entries is a prefix of the whole section and ends with the k-th declaration |
| CSharpExport.EnumScopesBalance | src/EnumGenerator.Core/Exporter/CSharpExporter.cs:83-97 | the enum has exactly one `{` line and one `}` line |
| CSharpExport.NamespaceScopesBalance | src/EnumGenerator.Core/Exporter/CSharpExporter.cs:68-73 | a namespace block has exactly two `{` lines and two `}` lines |
| CSharpExport.BracesBalance | src/EnumGenerator.Core/Exporter/CSharpExporter.cs:52-110 | a successful export has as many `{` lines as `}` lines: one each without a namespace, two each with one |
| CSharpExport.EntrySummaryIffComment | src/EnumGenerator.Core/Exporter/CSharpExporter.cs:92-93 | an entry starts with a summary iff its comment is non-empty, and the summary's text is one line |
| CSharpExport.EnumSummaryIffComment | src/EnumGenerator.Core/Exporter/CSharpExporter.cs:79-80 | the enum starts with a summary iff its comment is non-empty |
| CSharpExport.DeclarationDeterminesValue | src/EnumGenerator.Core/Exporter/CSharpExporter.cs:94 | for one name, two declarations are equal iff the values are |
| CSharpExamples.InvalidNamespaceIsRejected | src/EnumGenerator.Tests/Exporter/CSharpExporterTests.cs:12-20 | namespace `0Test` fails with InvalidNamespace |
| CSharpExamples.TestEnumEntries | src/EnumGenerator.Tests/Exporter/CSharpExporterTests.cs:36-38 | entries A = 1 and B = 2 give `A = 1,`, a blank line, `B = 2,` |
| CSharpExamples.TestEnumLines | src/EnumGenerator.Tests/Exporter/CSharpExporterTests.cs:34-39 | the enum block is `public enum TestEnum`, `{`, the entries, `}` |
| CSharpExamples.TestNamespaceBlock | src/EnumGenerator.Tests/Exporter/CSharpExporterTests.cs:34-39 | inside namespace `Test` the enum block sits one level deep |
| CSharpExamples.BasicEnumIsPresent | src/EnumGenerator.Tests/Exporter/CSharpExporterTests.cs:22-42 | exporting with namespace `Test` succeeds, and the output contains the expected enum block at its expected depths |
| FSharpExport.FSharpOutput | src/EnumGenerator.Core/Exporter/FSharpExporter.cs:32-84 | the whole F# export on values; `ExportFSharp` is proved against it, and `OutputEndsWithEntries`, `HeaderIffRequested` and `EntryCommentsIgnored` state its properties |
| FSharpExport.AddOpening | src/EnumGenerator.Core/Exporter/FSharpExporter.cs:50-62 | writes the header and a blank line unless the mode is None, then `namespace <ns>`, a blank line, `open System.CodeDom.Compiler` and a blank line |
| FSharpExport.AddTypeLines | src/EnumGenerator.Core/Exporter/FSharpExporter.cs:64-71 | writes the summary if any, the attribute and `type <Identifier> =` |
| FSharpExport.AddEntry | src/EnumGenerator.Core/Exporter/FSharpExporter.cs:80 | writes `\| <Name> = <Value><suffix>` one level deeper |
| FSharpExport.AddEntries | src/EnumGenerator.Core/Exporter/FSharpExporter.cs:74-81 | the loop writes one line per entry, in order |
| FSharpExport.AddFile | src/EnumGenerator.Core/Exporter/FSharpExporter.cs:49-81 | writes the opening, the type lines and the entries |
| FSharpExport.ExportFSharp | src/EnumGenerator.Core/Exporter/FSharpExporter.cs:32-84 | returns the F# output function's result |
| FSharpExport.EmptyNamespaceRejected | src/EnumGenerator.Core/Exporter/FSharpExporter.cs:43-44 | the empty namespace always fails with InvalidNamespace |
| FSharpExport.ChecksInOppositeOrder | src/EnumGenerator.Core/Exporter/FSharpExporter.cs:43-47 | with an invalid namespace and an out-of-range value, F# reports the namespace while C# reports the value |
| FSharpExport.OutOfRangeReportedFirst | src/EnumGenerator.Core/Exporter/FSharpExporter.cs:46-47 | with a valid namespace, any out-of-range value fails the export, and the error names the first such value |
| FSharpExport.OutputEndsWithEntries | src/EnumGenerator.Core/Exporter/FSharpExporter.cs:49-81 | on success, indentation uses spaces, and the output ends with `type <Identifier> =` followed by exactly one line per entry, in order, one level deeper, with no blank line between entries |
| FSharpExport.HeaderIffRequested | src/EnumGenerator.Core/Exporter/FSharpExporter.cs:50-57 | the output starts with the header iff the header mode asks for one |
| FSharpExport.TypeSummaryIffComment | src/EnumGenerator.Core/Exporter/FSharpExporter.cs:65-66 | the type starts with a summary iff the enum's comment is non-empty |
| FSharpExport.EntryCommentsIgnored | src/EnumGenerator.Core/Exporter/FSharpExporter.cs:74-81 | dropping every entry comment leaves the output unchanged |
| FSharpExport.SuffixEmptyIffImplicit | src/EnumGenerator.Core/Exporter/FSharpExporter.cs:76-78 | if every concrete type has a suffix, the suffix is empty iff the storage type is Implicit |
| FSharpExport.EntryTextDeterminesValue | src/EnumGenerator.Core/Exporter/FSharpExporter.cs:80 | for one name and suffix, two entry lines are equal iff the values are |

## Left out

- **JSON library.** Deserialisation, JPath selection and `Value<T>` coercion are a
  reader parameter, because they are a foreign library. The wrong-type tests of
  the other test tree describe library coercion in a mapper that is not part of
  this model.
- **Logging.** The mapper's logging calls do not affect results and are dropped.
  ConsoleLogger and LoggerAdapter are not part of this model.
- **Command line.** The command-line applications, their options, the output-type
  tables and the demo program are file I/O and argument handling, and are not
  part of this model.
- **`IdentifierCreator.TryCreateIdentifier`.** Its code is not part of this model,
  so it is a parameter.
- **`GetFSharpLiteralSuffix`.** Its code is not part of this model, so it is a
  parameter.
- **Code builder rendering.** The code builder's own code is not part of this
  model. Its output is a sequence of lines with depth, prefix and text, and
  indentation characters and newlines are not rendered. The configuration is kept
  as a record.
- **Reflection.** The assembly's name and version come from reflection and are a
  parameter.
- **Other exporters and the content hash.** The class-library, CIL and Visual
  Basic exporters and the 128-bit content hash are not modelled.
- **`IdentifierValidator.ValidateNamespace`.** Its code is not modelled. The model
  assumes it accepts exactly the strings whose dot-separated segments are all
  valid identifiers. That assumption agrees with every namespace example in
  `src/EnumGenerator.Tests/Utilities/IdentifierValidatorTests.cs:56-72`.
- **StorageTypes:** values outside the nine declared members are not modelled.
  C# allows them by cast, and every switch on them raises `ArgumentException`
  (`src/EnumGenerator.Core/Exporter/StorageTypeValidator.cs:51-52` and `89-90`,
  `src/EnumGenerator.Core/Exporter/StorageTypeExtensions.cs:37-38`, `75-76` and
  `105-106`).
- **Decimal.IntToString:** renders negative values with '-', as the invariant
  culture does. The source uses string interpolation, which follows the current
  culture, and some cultures use another minus sign, such as U+2212.
- **Unicode categories.** `char.GetUnicodeCategory` is a table parameter. UTF-16
  surrogate pairs are not modelled: a string is a sequence of characters, each
  with one category.
- **Null arguments.** The null definition and null context arguments of the
  exporters and the mapper are not modelled; the context is an `Option`. The
  private `MapEnum`'s and `MapEntry`'s own null checks cannot fail when called
  from the public `MapEnum`, and are left out.
- **AddNamespace callback.** The `addContent` callback of `AddNamespace` is
  inlined as the call to `AddEnum`, the only content the exporter passes.
- **ExportCommon.AddSummary:** requires a non-empty text instead of raising an
  argument error. Both exporters call it only after checking the comment is
  non-empty, so that error cannot occur.
- **CSharpExport.EndScope:** requires a positive depth, because the exporter only
  closes scopes it opened.
- **FSharpExport.HeaderMode:** has two members, `Default` and `NoHeader`. The
  latter is the source's `HeaderMode.None`; the header mode's own definition is
  not part of this model. F#'s `WriteEndLine` is modelled as a blank line.
- **Value types.** The two source trees share one definition datatype: the
  builder and the mapper push 32-bit values, and the exporters read 64-bit values.
- **MappingExamples.ExplicitValuesAreRespected:** covers the first two of the
  test's three nodes, because the third adds nothing new.
- **MappingExamples.CommentsAreParsed:** covers the first two of the test's three
  nodes, because the third adds nothing new.
- **StorageTypeValidator.GetMaxSupportedValue:** its own contract states only a
  lower bound. The exact table is stated by `BoundsFollowWidth` and
  `UlongMaxIsLongMax`.
