/** The F# exporter (FSharpExporter.cs): an optional header, the mandatory namespace,
    the `open` line, then the enum as an F# union-style type with one `| <Name> = <Value>`
    line per entry. Entry comments are not written, and indentation is always spaces. */
module FSharpExport {
  import opened Wrappers
  import opened Decimal
  import opened Identifiers
  import opened Definitions
  import opened StorageTypes
  import StorageTypeValidator
  import opened CodeWriting
  import opened ExportCommon
  import opened Sequences
  import CSharpExport

  /** `HeaderMode`: `NoHeader` is the source's `HeaderMode.None`. */
  datatype HeaderMode = Default | NoHeader

  /** `GetFSharpLiteralSuffix`: the literal suffix F# wants after a value of a storage type. */
  type LiteralSuffixes = StorageType -> string

  /** The suffix each entry's value gets: none for Implicit. */
  function Suffix(storage: StorageType, suffixes: LiteralSuffixes): string {
    if storage == Implicit then "" else suffixes(storage)
  }

  function EntryText(e: EnumEntry, suffix: string): string {
    "| " + e.name + " = " + IntToString(e.value) + suffix
  }

  /** One line per entry, one indentation level deeper than the type. */
  function EntryLines(entries: seq<EnumEntry>, suffix: string): (r: seq<Line>)
    ensures |r| == |entries|
    ensures forall i :: 0 <= i < |entries| ==> r[i] == Line(1, "", EntryText(entries[i], suffix))
  {
    seq(|entries|, i requires 0 <= i < |entries| => Line(1, "", EntryText(entries[i], suffix)))
  }

  function Attribute(asm: AssemblyInfo): string {
    "[<GeneratedCode(\"" + asm.name + "\", \"" + asm.version + "\")>]"
  }

  /** The header with its blank line when asked for, then the namespace and `open` lines. */
  function Opening(ns: string, headerMode: HeaderMode, asm: AssemblyInfo): seq<Line> {
    (if headerMode != NoHeader then HeaderLines(0, asm) + [Blank] else [])
      + [Line(0, "", "namespace " + ns), Blank, Line(0, "", "open System.CodeDom.Compiler"), Blank]
  }

  /** The type's summary when it has a comment, its attribute and `type <Identifier> =`. */
  function TypeLines(d: EnumDefinition, asm: AssemblyInfo): seq<Line> {
    (if HasText(d.comment) then SummaryLines(0, d.comment.value) else [])
      + [Line(0, "", Attribute(asm)), Line(0, "", "type " + d.identifier + " =")]
  }

  /** What `ExportFSharp` returns: the namespace check first, then the range check. */
  function FSharpOutput(d: EnumDefinition, ns: string, headerMode: HeaderMode, indentSize: int,
                        newlineMode: NewlineMode, storage: StorageType, asm: AssemblyInfo,
                        ucd: CategoryTable, suffixes: LiteralSuffixes): Result<CodeText, ExportError>
  {
    if !ValidateNamespace(ucd, ns) then Failure(InvalidNamespace(ns))
    else match BoundsError(d.entries, storage)
      case Some(e) => Failure(e)
      case None =>
        Success(CodeText(WriterConfig(Spaces, indentSize, newlineMode),
                         Opening(ns, headerMode, asm) + TypeLines(d, asm) + EntryLines(d.entries, Suffix(storage, suffixes))))
  }

  /** The statements of `ExportFSharp` before the enum: the header, the namespace and `open`. */
  method AddOpening(w: CodeWriter, ns: string, headerMode: HeaderMode, asm: AssemblyInfo)
    requires w.depth == 0
    modifies w`lines
    ensures w.lines == old(w.lines) + Opening(ns, headerMode, asm)
  {
    ghost var s0 := w.lines;
    ghost var header: seq<Line> := if headerMode != NoHeader then HeaderLines(0, asm) + [Blank] else [];
    if headerMode != NoHeader {
      AddHeader(w, asm);
      w.WriteEmptyLine();
    }
    ghost var s1 := w.lines;
    assert s1 == s0 + header;
    w.WriteLine("namespace " + ns, "", 0);
    w.WriteEmptyLine();
    w.WriteLine("open System.CodeDom.Compiler", "", 0);
    w.WriteEmptyLine();
    Chain2(s0, s1, w.lines, header,
           [Line(0, "", "namespace " + ns), Blank, Line(0, "", "open System.CodeDom.Compiler"), Blank]);
  }

  /** The type's summary, attribute and `type` line. */
  method AddTypeLines(w: CodeWriter, d: EnumDefinition, asm: AssemblyInfo)
    requires w.depth == 0
    modifies w`lines
    ensures w.lines == old(w.lines) + TypeLines(d, asm)
  {
    ghost var s0 := w.lines;
    ghost var summary := if HasText(d.comment) then SummaryLines(0, d.comment.value) else [];
    if HasText(d.comment) {
      AddSummary(w, d.comment.value);
    }
    ghost var s1 := w.lines;
    w.WriteLine(Attribute(asm), "", 0);
    w.WriteLine("type " + d.identifier + " =", "", 0);
    Singles2(s1, Line(0, "", Attribute(asm)), Line(0, "", "type " + d.identifier + " ="));
    Chain2(s0, s1, w.lines, summary, [Line(0, "", Attribute(asm)), Line(0, "", "type " + d.identifier + " =")]);
  }

  /** One entry: `| <Name> = <value><suffix>`, one level deeper. */
  method AddEntry(w: CodeWriter, e: EnumEntry, literalSuffix: string)
    requires w.depth == 0
    modifies w`lines
    ensures w.lines == old(w.lines) + [Line(1, "", EntryText(e, literalSuffix))]
  {
    w.WriteLine("| " + e.name + " = " + IntToString(e.value) + literalSuffix, "", 1);
  }

  lemma EntryLinesStep(entries: seq<EnumEntry>, i: nat, suffix: string)
    requires i < |entries|
    ensures EntryLines(entries[..i + 1], suffix) == EntryLines(entries[..i], suffix) + [Line(1, "", EntryText(entries[i], suffix))]
  {
  }

  /** The `foreach` over the entries: one line each, one level deeper. */
  method AddEntries(w: CodeWriter, entries: seq<EnumEntry>, storage: StorageType, suffixes: LiteralSuffixes)
    requires w.depth == 0
    modifies w`lines
    ensures w.lines == old(w.lines) + EntryLines(entries, Suffix(storage, suffixes))
  {
    ghost var s0 := w.lines;
    var i := 0;
    while i < |entries|
      invariant 0 <= i <= |entries|
      invariant w.depth == 0
      invariant w.lines == s0 + EntryLines(entries[..i], Suffix(storage, suffixes))
    {
      var literalSuffix := if storage == Implicit then "" else suffixes(storage);
      assert literalSuffix == Suffix(storage, suffixes);
      AddEntry(w, entries[i], literalSuffix);
      EntryLinesStep(entries, i, literalSuffix);
      Assoc3(s0, EntryLines(entries[..i], literalSuffix), [Line(1, "", EntryText(entries[i], literalSuffix))]);
      i := i + 1;
    }
    assert entries[..i] == entries;
  }

  /** Everything `ExportFSharp` writes once its checks have passed. */
  method AddFile(w: CodeWriter, d: EnumDefinition, ns: string, headerMode: HeaderMode, storage: StorageType,
                 asm: AssemblyInfo, suffixes: LiteralSuffixes)
    requires w.depth == 0
    modifies w`lines
    ensures w.lines == old(w.lines) + (Opening(ns, headerMode, asm) + TypeLines(d, asm)
                                       + EntryLines(d.entries, Suffix(storage, suffixes)))
  {
    ghost var s0 := w.lines;
    AddOpening(w, ns, headerMode, asm);
    ghost var s1 := w.lines;
    AddTypeLines(w, d, asm);
    ghost var s2 := w.lines;
    AddEntries(w, d.entries, storage, suffixes);
    Chain3(s0, s1, s2, w.lines, Opening(ns, headerMode, asm), TypeLines(d, asm),
           EntryLines(d.entries, Suffix(storage, suffixes)));
  }

  /** `ExportFSharp`. */
  method ExportFSharp(d: EnumDefinition, ns: string, headerMode: HeaderMode, indentSize: int,
                      newlineMode: NewlineMode, storage: StorageType, asm: AssemblyInfo,
                      ucd: CategoryTable, suffixes: LiteralSuffixes) returns (r: Result<CodeText, ExportError>)
    ensures r == FSharpOutput(d, ns, headerMode, indentSize, newlineMode, storage, asm, ucd, suffixes)
  {
    if !ValidateNamespace(ucd, ns) {
      return Failure(InvalidNamespace(ns));
    }
    var bounds := CheckBounds(d.entries, storage);
    if bounds.Some? {
      return Failure(bounds.value);
    }
    var w := new CodeWriter(WriterConfig(Spaces, indentSize, newlineMode));
    AddFile(w, d, ns, headerMode, storage, asm, suffixes);
    ghost var whole := Opening(ns, headerMode, asm) + TypeLines(d, asm) + EntryLines(d.entries, Suffix(storage, suffixes));
    assert w.lines == [] + whole == whole;
    var text := w.Build();
    return Success(text);
  }

  // ----- What the output promises -----

  /** The namespace is mandatory: the empty namespace is always rejected. */
  lemma EmptyNamespaceRejected(d: EnumDefinition, headerMode: HeaderMode, indentSize: int, newlineMode: NewlineMode,
                               storage: StorageType, asm: AssemblyInfo, ucd: CategoryTable, suffixes: LiteralSuffixes)
    ensures FSharpOutput(d, "", headerMode, indentSize, newlineMode, storage, asm, ucd, suffixes)
         == Failure(InvalidNamespace(""))
  {
    NamespaceWithoutDots(ucd, "");
  }

  /** The two exporters order their checks differently: given an invalid non-empty
      namespace and an out-of-range value, F# reports the namespace and C# the value. */
  lemma ChecksInOppositeOrder(d: EnumDefinition, ns: string, headerMode: HeaderMode, config: WriterConfig,
                              storage: StorageType, asm: AssemblyInfo, ucd: CategoryTable,
                              suffixes: LiteralSuffixes, i: nat)
    requires ns != "" && !ValidateNamespace(ucd, ns)
    requires i < |d.entries| && !StorageTypeValidator.Validate(storage, d.entries[i].value)
    ensures FSharpOutput(d, ns, headerMode, config.indentSize, config.newlineMode, storage, asm, ucd, suffixes)
         == Failure(InvalidNamespace(ns))
    ensures CSharpExport.CSharpOutput(d, ns, config, storage, asm, ucd).Failure?
    ensures CSharpExport.CSharpOutput(d, ns, config, storage, asm, ucd).error.OutOfBoundsValue?
  {
    CSharpExport.OutOfRangeReportedFirst(d, ns, config, storage, asm, ucd, i);
  }

  /** With a valid namespace, an out-of-range value fails the export, and the error
      names the first such value in entry order. */
  lemma OutOfRangeReportedFirst(d: EnumDefinition, ns: string, headerMode: HeaderMode, indentSize: int,
                                newlineMode: NewlineMode, storage: StorageType, asm: AssemblyInfo,
                                ucd: CategoryTable, suffixes: LiteralSuffixes, i: nat)
    requires ValidateNamespace(ucd, ns)
    requires i < |d.entries| && !StorageTypeValidator.Validate(storage, d.entries[i].value)
    ensures FSharpOutput(d, ns, headerMode, indentSize, newlineMode, storage, asm, ucd, suffixes).Failure?
    ensures exists k ::
      && 0 <= k <= i
      && FSharpOutput(d, ns, headerMode, indentSize, newlineMode, storage, asm, ucd, suffixes).error
         == OutOfBoundsValue(storage, d.entries[k].value)
      && !StorageTypeValidator.Validate(storage, d.entries[k].value)
      && forall j :: 0 <= j < k ==> StorageTypeValidator.Validate(storage, d.entries[j].value)
  {
    var k := FirstOutOfBounds(d.entries, storage).value;
    assert k <= i;
  }

  /** A successful export uses spaces, ends with `type <Identifier> =` followed by exactly
      one line per entry, in entry order, one level deeper and with no blank line between. */
  lemma OutputEndsWithEntries(d: EnumDefinition, ns: string, headerMode: HeaderMode, indentSize: int,
                              newlineMode: NewlineMode, storage: StorageType, asm: AssemblyInfo,
                              ucd: CategoryTable, suffixes: LiteralSuffixes)
    requires FSharpOutput(d, ns, headerMode, indentSize, newlineMode, storage, asm, ucd, suffixes).Success?
    ensures FSharpOutput(d, ns, headerMode, indentSize, newlineMode, storage, asm, ucd, suffixes).value.config.indentMode
         == Spaces
    ensures var lines := FSharpOutput(d, ns, headerMode, indentSize, newlineMode, storage, asm, ucd, suffixes).value.lines;
      && |lines| > |d.entries|
      && lines[|lines| - |d.entries| - 1] == Line(0, "", "type " + d.identifier + " =")
      && forall k :: 0 <= k < |d.entries| ==>
           lines[|lines| - |d.entries| + k] == Line(1, "", EntryText(d.entries[k], Suffix(storage, suffixes)))
  {
    var head := Opening(ns, headerMode, asm) + TypeLines(d, asm);
    var tail := EntryLines(d.entries, Suffix(storage, suffixes));
    var lines := head + tail;
    assert head[|head| - 1] == Line(0, "", "type " + d.identifier + " =");
    assert forall k :: 0 <= k < |tail| ==> lines[|head| + k] == tail[k];
  }

  /** The output starts with the header exactly when the header mode asks for one. */
  lemma HeaderIffRequested(d: EnumDefinition, ns: string, headerMode: HeaderMode, indentSize: int,
                           newlineMode: NewlineMode, storage: StorageType, asm: AssemblyInfo,
                           ucd: CategoryTable, suffixes: LiteralSuffixes)
    requires FSharpOutput(d, ns, headerMode, indentSize, newlineMode, storage, asm, ucd, suffixes).Success?
    ensures var lines := FSharpOutput(d, ns, headerMode, indentSize, newlineMode, storage, asm, ucd, suffixes).value.lines;
      && lines != []
      && (lines[0] == Line(0, "", Rule) <==> headerMode == Default)
  {
    var opening := Opening(ns, headerMode, asm);
    var lines := opening + TypeLines(d, asm) + EntryLines(d.entries, Suffix(storage, suffixes));
    assert lines[0] == opening[0];
    if headerMode == NoHeader {
      assert opening[0] == Line(0, "", "namespace " + ns);
      assert ("namespace " + ns)[0] == 'n';
    }
  }

  /** The type starts with a summary exactly when the enum's comment is non-empty. */
  lemma TypeSummaryIffComment(d: EnumDefinition, asm: AssemblyInfo)
    ensures TypeLines(d, asm)[0] == Line(0, "", "/// <summary>") <==> HasText(d.comment)
  {
    assert Attribute(asm)[0] == '[';
    assert "/// <summary>"[0] == '/';
  }

  /** The entries with their comments dropped. */
  function WithoutComments(entries: seq<EnumEntry>): (r: seq<EnumEntry>)
    ensures |r| == |entries|
    ensures forall i :: 0 <= i < |entries| ==> r[i] == entries[i].(comment := None)
  {
    seq(|entries|, i requires 0 <= i < |entries| => entries[i].(comment := None))
  }

  /** Entry comments are never written: dropping them changes nothing. */
  lemma EntryCommentsIgnored(d: EnumDefinition, ns: string, headerMode: HeaderMode, indentSize: int,
                             newlineMode: NewlineMode, storage: StorageType, asm: AssemblyInfo,
                             ucd: CategoryTable, suffixes: LiteralSuffixes)
    ensures FSharpOutput(d, ns, headerMode, indentSize, newlineMode, storage, asm, ucd, suffixes)
         == FSharpOutput(d.(entries := WithoutComments(d.entries)), ns, headerMode, indentSize, newlineMode,
                         storage, asm, ucd, suffixes)
  {
    var stripped := WithoutComments(d.entries);
    BoundsErrorDependsOnValues(d.entries, stripped, storage);
    EntryLinesIgnoreComments(d.entries, Suffix(storage, suffixes));
    assert TypeLines(d, asm) == TypeLines(d.(entries := stripped), asm);
  }

  lemma EntryLinesIgnoreComments(entries: seq<EnumEntry>, suffix: string)
    ensures EntryLines(entries, suffix) == EntryLines(WithoutComments(entries), suffix)
  {
    var stripped := WithoutComments(entries);
    assert forall i :: 0 <= i < |entries| ==> EntryText(entries[i], suffix) == EntryText(stripped[i], suffix);
  }

  /** When every concrete storage type has a suffix, the suffix is empty exactly for Implicit. */
  lemma SuffixEmptyIffImplicit(storage: StorageType, suffixes: LiteralSuffixes)
    requires forall t :: t != Implicit ==> suffixes(t) != ""
    ensures Suffix(storage, suffixes) == "" <==> storage == Implicit
  {
  }

  /** An entry line determines the value it declares. */
  lemma EntryTextDeterminesValue(a: EnumEntry, b: EnumEntry, suffix: string)
    requires a.name == b.name
    ensures EntryText(a, suffix) == EntryText(b, suffix) <==> a.value == b.value
  {
    if EntryText(a, suffix) == EntryText(b, suffix) {
      var p := |a.name| + 5;
      var ta, tb := EntryText(a, suffix), EntryText(b, suffix);
      assert ta[p..|ta| - |suffix|] == IntToString(a.value);
      assert tb[p..|tb| - |suffix|] == IntToString(b.value);
      IntToStringInjective(a.value, b.value);
    }
  }
}
