/** The C# exporter (CSharpExporter.cs): a header, a `using` line, an optional
    namespace block, and the enum with one `<Name> = <Value>,` line per entry,
    consecutive entries separated by one blank line. */
module CSharpExport {
  import opened Wrappers
  import opened Integers
  import opened Decimal
  import opened Identifiers
  import opened Definitions
  import opened StorageTypes
  import opened StorageTypeValidator
  import opened CodeWriting
  import opened ExportCommon
  import opened Sequences

  function GeneratedCodeAttribute(asm: AssemblyInfo): string {
    "[GeneratedCode(\"" + asm.name + "\", \"" + asm.version + "\")]"
  }

  function Declaration(e: EnumEntry): string {
    e.name + " = " + IntToString(e.value) + ","
  }

  /** One entry: its summary when it has a comment, then its declaration. */
  function EntryLines(depth: nat, e: EnumEntry): seq<Line> {
    (if HasText(e.comment) then SummaryLines(depth, e.comment.value) else [])
      + [Line(depth, "", Declaration(e))]
  }

  /** One block per entry, in entry order. */
  function EntryBlocks(depth: nat, entries: seq<EnumEntry>): (r: seq<seq<Line>>)
    ensures |r| == |entries|
    ensures forall i :: 0 <= i < |entries| ==> r[i] == EntryLines(depth, entries[i])
  {
    seq(|entries|, i requires 0 <= i < |entries| => EntryLines(depth, entries[i]))
  }

  /** The entries' blocks with one blank line between consecutive blocks. */
  function EntrySection(depth: nat, entries: seq<EnumEntry>): seq<Line> {
    Joined(EntryBlocks(depth, entries), Blank)
  }

  /** Everything `AddEnum` writes before the entries. */
  function EnumOpening(depth: nat, d: EnumDefinition, asm: AssemblyInfo): seq<Line> {
    (if HasText(d.comment) then SummaryLines(depth, d.comment.value) else [])
      + [Line(depth, "", GeneratedCodeAttribute(asm)), Line(depth, "", "public enum " + d.identifier), Line(depth, "", "{")]
  }

  function EnumLines(depth: nat, d: EnumDefinition, asm: AssemblyInfo): seq<Line> {
    EnumOpening(depth, d, asm) + EntrySection(depth + 1, d.entries) + [Line(depth, "", "}")]
  }

  function NamespaceOpening(depth: nat, ns: string): seq<Line> {
    [Line(depth, "", "namespace " + ns), Line(depth, "", "{")]
  }

  function NamespaceLines(depth: nat, ns: string, d: EnumDefinition, asm: AssemblyInfo): seq<Line> {
    NamespaceOpening(depth, ns) + EnumLines(depth + 1, d, asm) + [Line(depth, "", "}")]
  }

  /** The header, a blank line, the `using` line and another blank line. */
  function Preamble(asm: AssemblyInfo): seq<Line> {
    HeaderLines(0, asm) + [Blank, Line(0, "", "using System.CodeDom.Compiler;"), Blank]
  }

  /** What `Export` returns: the range check first, then the namespace check, which
      only a non-empty namespace undergoes. */
  function CSharpOutput(d: EnumDefinition, ns: string, config: WriterConfig, storage: StorageType,
                        asm: AssemblyInfo, ucd: CategoryTable): Result<CodeText, ExportError>
  {
    match BoundsError(d.entries, storage)
    case Some(e) => Failure(e)
    case None =>
      if ns == "" then Success(CodeText(config, Preamble(asm) + EnumLines(0, d, asm)))
      else if !ValidateNamespace(ucd, ns) then Failure(InvalidNamespace(ns))
      else Success(CodeText(config, Preamble(asm) + NamespaceLines(0, ns, d, asm)))
  }

  method StartScope(w: CodeWriter)
    modifies w`lines, w`depth
    ensures w.lines == old(w.lines) + [Line(old(w.depth), "", "{")]
    ensures w.depth == old(w.depth) + 1
  {
    w.WriteLine("{", "", 0);
    w.BeginIndent();
  }

  method EndScope(w: CodeWriter)
    requires w.depth > 0
    modifies w`lines, w`depth
    ensures w.lines == old(w.lines) + [Line(old(w.depth) - 1, "", "}")]
    ensures w.depth == old(w.depth) - 1
  {
    w.EndIndent();
    w.WriteLine("}", "", 0);
  }

  /** What one turn of `AddEnum`'s loop writes: a separating blank line unless it is
      the first entry, then the entry's lines. */
  function EntryStep(depth: nat, e: EnumEntry, first: bool): seq<Line> {
    (if first then [] else [Blank]) + EntryLines(depth, e)
  }

  /** The section grows one entry at a time, with a blank line before every entry but the first. */
  lemma EntrySectionStep(depth: nat, entries: seq<EnumEntry>, i: nat)
    requires i < |entries|
    ensures EntrySection(depth, entries[..i + 1]) == EntrySection(depth, entries[..i]) + EntryStep(depth, entries[i], i == 0)
  {
    var blocks := EntryBlocks(depth, entries[..i]);
    assert EntryBlocks(depth, entries[..i + 1]) == blocks + [EntryLines(depth, entries[i])];
    JoinedStep(blocks, EntryLines(depth, entries[i]), Blank);
  }

  /** One turn of `AddEnum`'s loop: a separating blank line unless it is the first entry,
      the entry's summary when it has a comment, then its declaration. */
  method AddEntry(w: CodeWriter, entry: EnumEntry, first: bool)
    modifies w`lines
    ensures w.lines == old(w.lines) + EntryStep(w.depth, entry, first)
  {
    ghost var s0 := w.lines;
    ghost var separator: seq<Line> := if first then [] else [Blank];
    ghost var summary := if HasText(entry.comment) then SummaryLines(w.depth, entry.comment.value) else [];
    if !first {
      w.WriteEmptyLine();
    }
    ghost var s1 := w.lines;
    if HasText(entry.comment) {
      AddSummary(w, entry.comment.value);
    }
    ghost var s2 := w.lines;
    w.WriteLine(Declaration(entry), "", 0);
    Chain3(s0, s1, s2, w.lines, separator, summary, [Line(w.depth, "", Declaration(entry))]);
  }

  /** The `foreach` of `AddEnum`, with its `first` flag. */
  method AddEntries(w: CodeWriter, entries: seq<EnumEntry>)
    modifies w`lines
    ensures w.lines == old(w.lines) + EntrySection(w.depth, entries)
  {
    ghost var s0 := w.lines;
    ghost var depth := w.depth;
    var first := true;
    var i := 0;
    while i < |entries|
      invariant 0 <= i <= |entries|
      invariant first <==> i == 0
      invariant w.depth == depth
      invariant w.lines == s0 + EntrySection(depth, entries[..i])
    {
      ghost var before := EntrySection(depth, entries[..i]);
      ghost var step := EntryStep(depth, entries[i], first);
      AddEntry(w, entries[i], first);
      EntrySectionStep(depth, entries, i);
      Assoc3(s0, before, step);
      first := false;
      i := i + 1;
    }
    assert entries[..i] == entries;
  }

  /** The part of `AddEnum` before the entries: the summary, the attribute, the
      declaration and the opening brace. */
  method AddEnumOpening(w: CodeWriter, d: EnumDefinition, asm: AssemblyInfo)
    modifies w`lines, w`depth
    ensures w.lines == old(w.lines) + EnumOpening(old(w.depth), d, asm)
    ensures w.depth == old(w.depth) + 1
  {
    ghost var s0 := w.lines;
    ghost var depth := w.depth;
    ghost var summary := if HasText(d.comment) then SummaryLines(depth, d.comment.value) else [];
    if HasText(d.comment) {
      AddSummary(w, d.comment.value);
    }
    ghost var s1 := w.lines;
    w.WriteLine(GeneratedCodeAttribute(asm), "", 0);
    w.WriteLine("public enum " + d.identifier, "", 0);
    StartScope(w);
    Singles3(s1, [], Line(depth, "", GeneratedCodeAttribute(asm)), Line(depth, "", "public enum " + d.identifier),
             Line(depth, "", "{"));
    Chain2(s0, s1, w.lines, summary,
           [Line(depth, "", GeneratedCodeAttribute(asm)), Line(depth, "", "public enum " + d.identifier), Line(depth, "", "{")]);
  }

  method AddEnum(w: CodeWriter, d: EnumDefinition, asm: AssemblyInfo)
    modifies w`lines, w`depth
    ensures w.lines == old(w.lines) + EnumLines(old(w.depth), d, asm)
    ensures w.depth == old(w.depth)
  {
    ghost var s0 := w.lines;
    ghost var depth := w.depth;
    ghost var opening := EnumOpening(depth, d, asm);
    ghost var section := EntrySection(depth + 1, d.entries);
    ghost var closing := [Line(depth, "", "}")];
    assert EnumLines(depth, d, asm) == opening + section + closing;
    AddEnumOpening(w, d, asm);
    ghost var s1 := w.lines;
    AddEntries(w, d.entries);
    ghost var s2 := w.lines;
    EndScope(w);
    Chain3(s0, s1, s2, w.lines, opening, section, closing);
  }

  /** The namespace line and its opening brace. */
  method AddNamespaceOpening(w: CodeWriter, ns: string)
    modifies w`lines, w`depth
    ensures w.lines == old(w.lines) + NamespaceOpening(old(w.depth), ns)
    ensures w.depth == old(w.depth) + 1
  {
    ghost var s0 := w.lines;
    w.WriteLine("namespace " + ns, "", 0);
    StartScope(w);
    Singles2(s0, Line(old(w.depth), "", "namespace " + ns), Line(old(w.depth), "", "{"));
  }

  /** `AddNamespace`, with the enum as its content. */
  method AddNamespace(w: CodeWriter, ns: string, d: EnumDefinition, asm: AssemblyInfo, ucd: CategoryTable)
    returns (r: Outcome<ExportError>)
    modifies w`lines, w`depth
    ensures w.depth == old(w.depth)
    ensures r.Fail? <==> !ValidateNamespace(ucd, ns)
    ensures r.Fail? ==> r.error == InvalidNamespace(ns) && w.lines == old(w.lines)
    ensures r.Pass? ==> w.lines == old(w.lines) + NamespaceLines(old(w.depth), ns, d, asm)
  {
    if !ValidateNamespace(ucd, ns) {
      return Fail(InvalidNamespace(ns));
    }
    ghost var s0 := w.lines;
    ghost var depth := w.depth;
    AddNamespaceOpening(w, ns);
    ghost var s1 := w.lines;
    AddEnum(w, d, asm);
    ghost var s2 := w.lines;
    EndScope(w);
    Chain3(s0, s1, s2, w.lines, NamespaceOpening(depth, ns), EnumLines(depth + 1, d, asm), [Line(depth, "", "}")]);
    return Pass;
  }

  /** `Export`. */
  method Export(d: EnumDefinition, ns: string, config: WriterConfig, storage: StorageType,
                asm: AssemblyInfo, ucd: CategoryTable) returns (r: Result<CodeText, ExportError>)
    ensures r == CSharpOutput(d, ns, config, storage, asm, ucd)
  {
    var bounds := CheckBounds(d.entries, storage);
    if bounds.Some? {
      return Failure(bounds.value);
    }
    var w := new CodeWriter(config);
    AddHeader(w, asm);
    w.WriteEmptyLine();
    w.WriteLine("using System.CodeDom.Compiler;", "", 0);
    w.WriteEmptyLine();
    assert w.lines == Preamble(asm);
    if ns == "" {
      AddEnum(w, d, asm);
    } else {
      var added := AddNamespace(w, ns, d, asm, ucd);
      if added.Fail? {
        return Failure(added.error);
      }
    }
    var text := w.Build();
    return Success(text);
  }

  // ----- What the output promises -----

  /** An out-of-range value fails the export whatever the namespace, and the error
      names the first such value in entry order. */
  lemma OutOfRangeReportedFirst(d: EnumDefinition, ns: string, config: WriterConfig, storage: StorageType,
                                asm: AssemblyInfo, ucd: CategoryTable, i: nat)
    requires i < |d.entries| && !StorageTypeValidator.Validate(storage, d.entries[i].value)
    ensures CSharpOutput(d, ns, config, storage, asm, ucd).Failure?
    ensures exists k ::
      && 0 <= k <= i
      && CSharpOutput(d, ns, config, storage, asm, ucd).error == OutOfBoundsValue(storage, d.entries[k].value)
      && !StorageTypeValidator.Validate(storage, d.entries[k].value)
      && forall j :: 0 <= j < k ==> StorageTypeValidator.Validate(storage, d.entries[j].value)
  {
    var k := FirstOutOfBounds(d.entries, storage).value;
    assert k <= i;
  }

  /** With every value in range, only a non-empty invalid namespace fails; the empty
      namespace is never validated. */
  lemma NamespaceCheckedOnlyWhenGiven(d: EnumDefinition, ns: string, config: WriterConfig, storage: StorageType,
                                      asm: AssemblyInfo, ucd: CategoryTable)
    requires forall i :: 0 <= i < |d.entries| ==> StorageTypeValidator.Validate(storage, d.entries[i].value)
    ensures CSharpOutput(d, ns, config, storage, asm, ucd).Failure? <==> ns != "" && !ValidateNamespace(ucd, ns)
    ensures CSharpOutput(d, ns, config, storage, asm, ucd).Failure? ==>
      CSharpOutput(d, ns, config, storage, asm, ucd).error == InvalidNamespace(ns)
  {
    assert BoundsError(d.entries, storage).None?;
  }

  /** The declaration carries no base type: two storage types that both accept every
      value produce the same text. */
  lemma StorageOnlyChecksRanges(d: EnumDefinition, ns: string, config: WriterConfig, s: StorageType, t: StorageType,
                                asm: AssemblyInfo, ucd: CategoryTable)
    requires forall i :: 0 <= i < |d.entries| ==> StorageTypeValidator.Validate(s, d.entries[i].value) && StorageTypeValidator.Validate(t, d.entries[i].value)
    ensures CSharpOutput(d, ns, config, s, asm, ucd) == CSharpOutput(d, ns, config, t, asm, ucd)
    ensures CSharpOutput(d, ns, config, s, asm, ucd).Success? <==> ns == "" || ValidateNamespace(ucd, ns)
  {
    BoundsErrorOnlyFromValues(d.entries, s, t);
  }

  /** Between the first `k` entries and the rest there is exactly one blank line. */
  lemma EntrySectionSplit(depth: nat, entries: seq<EnumEntry>, k: nat)
    requires 0 < k < |entries|
    ensures EntrySection(depth, entries)
         == EntrySection(depth, entries[..k]) + [Blank] + EntrySection(depth, entries[k..])
  {
    var blocks := EntryBlocks(depth, entries);
    assert blocks[..k] == EntryBlocks(depth, entries[..k]);
    assert blocks[k..] == EntryBlocks(depth, entries[k..]);
    JoinedSplit(blocks, Blank, k);
  }

  /** An entry's block is not empty, has every line at the block's depth (so no
      blank line), and ends with the declaration. */
  lemma EntryLinesLayout(depth: nat, e: EnumEntry)
    ensures forall x :: x in EntryLines(depth, e) ==> x.Line? && x.depth == depth
    ensures EntryLines(depth, e) != []
    ensures EntryLines(depth, e)[|EntryLines(depth, e)| - 1] == Line(depth, "", Declaration(e))
  {
  }

  /** The blank lines of the section are exactly the `|entries| - 1` separators. */
  lemma EntrySectionBlanks(depth: nat, entries: seq<EnumEntry>)
    requires entries != []
    ensures Count(EntrySection(depth, entries), Blank) == |entries| - 1
  {
    var blocks := EntryBlocks(depth, entries);
    forall i | 0 <= i < |blocks|
      ensures Blank !in blocks[i]
    {
      EntryLinesLayout(depth, entries[i]);
    }
    JoinedCount(blocks, Blank);
  }

  /** The section starts with the first entry's block and ends with the last entry's
      declaration: no blank line comes first or last. */
  lemma EntrySectionEnds(depth: nat, entries: seq<EnumEntry>)
    requires entries != []
    ensures EntrySection(depth, entries) != []
    ensures EntrySection(depth, entries)[0] == EntryLines(depth, entries[0])[0]
    ensures EntrySection(depth, entries)[|EntrySection(depth, entries)| - 1]
         == Line(depth, "", Declaration(entries[|entries| - 1]))
  {
    var blocks := EntryBlocks(depth, entries);
    forall i | 0 <= i < |blocks|
      ensures blocks[i] != []
    {
      EntryLinesLayout(depth, entries[i]);
    }
    JoinedEnds(blocks, Blank);
    EntryLinesLayout(depth, entries[|entries| - 1]);
  }

  /** Every line of the section that is not blank sits at the section's depth. */
  lemma EntrySectionDepth(depth: nat, entries: seq<EnumEntry>, x: Line)
    requires x in EntrySection(depth, entries) && x != Blank
    ensures x.depth == depth
  {
    var blocks := EntryBlocks(depth, entries);
    JoinedElements(blocks, Blank, x);
    var i :| 0 <= i < |blocks| && x in blocks[i];
    EntryLinesLayout(depth, entries[i]);
  }

  /** No line's text is a single character, so none is a lone brace. */
  predicate NoSingleCharLines(lines: seq<Line>) {
    forall x :: x in lines && x.Line? ==> |x.text| != 1
  }

  lemma {:induction false} NoSingleCharLinesCount(lines: seq<Line>, text: string)
    requires NoSingleCharLines(lines) && |text| == 1
    ensures CountText(lines, text) == 0
    decreases |lines|
  {
    if lines != [] {
      assert lines[0] in lines;
      assert forall x :: x in lines[1..] ==> x in lines;
      NoSingleCharLinesCount(lines[1..], text);
    }
  }

  lemma NoSingleCharLinesAppend(a: seq<Line>, b: seq<Line>)
    requires NoSingleCharLines(a) && NoSingleCharLines(b)
    ensures NoSingleCharLines(a + b)
  {
  }

  /** Summaries and declarations never consist of a single character. */
  lemma EntryLinesAreLong(depth: nat, e: EnumEntry)
    ensures NoSingleCharLines(EntryLines(depth, e))
  {
    if HasText(e.comment) {
      var t := CollapseNewlines(e.comment.value);
      assert |"/// " + t| >= 4;
    }
  }

  lemma PreambleIsLong(asm: AssemblyInfo)
    ensures NoSingleCharLines(Preamble(asm))
  {
  }

  lemma EntrySectionIsLong(depth: nat, entries: seq<EnumEntry>)
    ensures NoSingleCharLines(EntrySection(depth, entries))
  {
    var blocks := EntryBlocks(depth, entries);
    forall x | x in EntrySection(depth, entries) && x.Line?
      ensures |x.text| != 1
    {
      JoinedElements(blocks, Blank, x);
      var i :| 0 <= i < |blocks| && x in blocks[i];
      EntryLinesAreLong(depth, entries[i]);
    }
  }

  /** Before its brace, the opening of the enum holds no single-character line. */
  lemma OpeningBeforeBraceIsLong(depth: nat, d: EnumDefinition, asm: AssemblyInfo)
    ensures NoSingleCharLines(EnumOpening(depth, d, asm)[..|EnumOpening(depth, d, asm)| - 1])
    ensures EnumOpening(depth, d, asm)
         == EnumOpening(depth, d, asm)[..|EnumOpening(depth, d, asm)| - 1] + [Line(depth, "", "{")]
  {
    var opening := EnumOpening(depth, d, asm);
    var n := |opening|;
    if HasText(d.comment) {
      assert |"/// " + CollapseNewlines(d.comment.value)| >= 4;
    }
    assert forall i :: 0 <= i < n - 1 ==> opening[..n - 1][i] == opening[i];
  }

  /** The enum opens exactly one scope and closes it. */
  lemma {:induction false} EnumScopesBalance(depth: nat, d: EnumDefinition, asm: AssemblyInfo, brace: string)
    requires brace == "{" || brace == "}"
    ensures CountText(EnumLines(depth, d, asm), brace) == 1
  {
    var opening := EnumOpening(depth, d, asm);
    var named := opening[..|opening| - 1];
    var body := EntrySection(depth + 1, d.entries);
    OpeningBeforeBraceIsLong(depth, d, asm);
    EntrySectionIsLong(depth + 1, d.entries);
    NoSingleCharLinesCount(named, brace);
    NoSingleCharLinesCount(body, brace);
    CountTextAppend(named, [Line(depth, "", "{")], brace);
    CountTextAppend(opening, body, brace);
    CountTextAppend(opening + body, [Line(depth, "", "}")], brace);
  }

  /** A namespace block adds one more scope around the enum's. */
  lemma {:induction false} NamespaceScopesBalance(depth: nat, ns: string, d: EnumDefinition, asm: AssemblyInfo,
                                                  brace: string)
    requires brace == "{" || brace == "}"
    ensures CountText(NamespaceLines(depth, ns, d, asm), brace) == 2
  {
    var named := [Line(depth, "", "namespace " + ns)];
    var opening := named + [Line(depth, "", "{")];
    assert opening == [Line(depth, "", "namespace " + ns), Line(depth, "", "{")];
    EnumScopesBalance(depth + 1, d, asm, brace);
    NoSingleCharLinesCount(named, brace);
    CountTextAppend(named, [Line(depth, "", "{")], brace);
    CountTextAppend(opening, EnumLines(depth + 1, d, asm), brace);
    CountTextAppend(opening + EnumLines(depth + 1, d, asm), [Line(depth, "", "}")], brace);
  }

  /** Every `{` the exporter writes is matched by a `}`: one pair for the enum and
      one more for a namespace block. */
  lemma {:induction false} BracesBalance(d: EnumDefinition, ns: string, config: WriterConfig, storage: StorageType,
                                         asm: AssemblyInfo, ucd: CategoryTable, brace: string)
    requires brace == "{" || brace == "}"
    requires CSharpOutput(d, ns, config, storage, asm, ucd).Success?
    ensures CountText(CSharpOutput(d, ns, config, storage, asm, ucd).value.lines, brace) == if ns == "" then 1 else 2
  {
    var pre := Preamble(asm);
    PreambleIsLong(asm);
    NoSingleCharLinesCount(pre, brace);
    if ns == "" {
      EnumScopesBalance(0, d, asm, brace);
      CountTextAppend(pre, EnumLines(0, d, asm), brace);
    } else {
      NamespaceScopesBalance(0, ns, d, asm, brace);
      CountTextAppend(pre, NamespaceLines(0, ns, d, asm), brace);
    }
  }

  /** Entries come out in definition order: the section of the first `k` entries is a
      prefix of the whole section and ends with the `k`-th entry's declaration. */
  lemma EntriesInOrder(depth: nat, entries: seq<EnumEntry>, k: nat)
    requires 0 < k <= |entries|
    ensures EntrySection(depth, entries[..k]) <= EntrySection(depth, entries)
    ensures EntrySection(depth, entries[..k]) != []
    ensures EntrySection(depth, entries[..k])[|EntrySection(depth, entries[..k])| - 1]
         == Line(depth, "", Declaration(entries[k - 1]))
  {
    EntrySectionEnds(depth, entries[..k]);
    if k < |entries| {
      EntrySectionSplit(depth, entries, k);
    } else {
      assert entries[..k] == entries;
    }
  }

  /** An entry starts with a summary exactly when its comment is non-empty; the
      summary's text is then a single line. */
  lemma EntrySummaryIffComment(depth: nat, e: EnumEntry)
    ensures EntryLines(depth, e)[0] == Line(depth, "", "/// <summary>") <==> HasText(e.comment)
    ensures HasText(e.comment) ==> NoNewlines(EntryLines(depth, e)[1].text[4..])
  {
    var decl := Declaration(e);
    assert decl[|decl| - 1] == ',';
    assert "/// <summary>"[12] == '>';
    if HasText(e.comment) {
      CollapsedHasNoNewlines(e.comment.value);
      assert EntryLines(depth, e)[1].text[4..] == CollapseNewlines(e.comment.value);
    }
  }

  /** The enum starts with a summary exactly when its comment is non-empty. */
  lemma EnumSummaryIffComment(depth: nat, d: EnumDefinition, asm: AssemblyInfo)
    ensures EnumOpening(depth, d, asm)[0] == Line(depth, "", "/// <summary>") <==> HasText(d.comment)
  {
    assert GeneratedCodeAttribute(asm)[0] == '[';
    assert "/// <summary>"[0] == '/';
  }

  /** A declaration line determines the value it declares: `<Name> = <Value>,`
      spells the value in base 10. */
  lemma DeclarationDeterminesValue(a: EnumEntry, b: EnumEntry)
    requires a.name == b.name
    ensures Declaration(a) == Declaration(b) <==> a.value == b.value
  {
    if Declaration(a) == Declaration(b) {
      var p := |a.name| + 3;
      var da, db := Declaration(a), Declaration(b);
      assert da[p..|da| - 1] == IntToString(a.value);
      assert db[p..|db| - 1] == IntToString(b.value);
      IntToStringInjective(a.value, b.value);
    }
  }
}
