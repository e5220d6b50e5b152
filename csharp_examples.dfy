/** The two cases of CSharpExporterTests, stated over the model. */
module CSharpExamples {
  import opened Wrappers
  import opened Decimal
  import opened Identifiers
  import opened Definitions
  import opened StorageTypes
  import StorageTypeValidator
  import opened CodeWriting
  import opened ExportCommon
  import opened CSharpExport

  function TestEnum(): EnumDefinition {
    EnumDefinition("TestEnum", [EnumEntry("A", 1, None), EnumEntry("B", 2, None)], None)
  }

  /** A namespace starting with a digit is rejected. */
  lemma InvalidNamespaceIsRejected(config: WriterConfig, asm: AssemblyInfo, ucd: CategoryTable)
    requires StandardAscii(ucd)
    ensures CSharpOutput(EnumDefinition("TestEnum", [EnumEntry("A", 1, None)], None), "0Test", config, Implicit, asm, ucd)
         == Failure(InvalidNamespace("0Test"))
  {
    NamespaceWithoutDots(ucd, "0Test");
    LeadingDigitIsInvalid(ucd, "0Test");
  }

  /** The entries `A = 1,` and `B = 2,` with one blank line between them. */
  lemma TestEnumEntries(depth: nat)
    ensures EntrySection(depth, TestEnum().entries)
         == [Line(depth, "", "A = 1,"), Blank, Line(depth, "", "B = 2,")]
  {
    var es := TestEnum().entries;
    assert es[0] == EnumEntry("A", 1, None) && es[1] == EnumEntry("B", 2, None);
    assert IntToString(1) == "1" && IntToString(2) == "2";
    assert Declaration(es[0]) == "A = 1," && Declaration(es[1]) == "B = 2,";
    assert EntryLines(depth, es[0]) == [Line(depth, "", "A = 1,")];
    assert EntryLines(depth, es[1]) == [Line(depth, "", "B = 2,")];
    EntrySectionStep(depth, es, 0);
    assert es[..0] == [];
    assert EntrySection(depth, []) == [];
    assert EntrySection(depth, es[..1]) == [Line(depth, "", "A = 1,")];
    EntrySectionStep(depth, es, 1);
    assert es[..2] == es;
  }

  lemma TestEnumLines(depth: nat, asm: AssemblyInfo)
    ensures EnumLines(depth, TestEnum(), asm)[1..]
         == [Line(depth, "", "public enum TestEnum"), Line(depth, "", "{"), Line(depth + 1, "", "A = 1,"), Blank,
             Line(depth + 1, "", "B = 2,"), Line(depth, "", "}")]
  {
    var d := TestEnum();
    assert "public enum " + d.identifier == "public enum TestEnum";
    assert EnumOpening(depth, d, asm)[1..]
        == [Line(depth, "", "public enum TestEnum"), Line(depth, "", "{")];
    TestEnumEntries(depth + 1);
  }

  lemma TestNamespaceBlock(asm: AssemblyInfo)
    ensures NamespaceLines(0, "Test", TestEnum(), asm)[3..9]
         == [Line(1, "", "public enum TestEnum"), Line(1, "", "{"), Line(2, "", "A = 1,"), Blank,
             Line(2, "", "B = 2,"), Line(1, "", "}")]
  {
    var enum := EnumLines(1, TestEnum(), asm);
    TestEnumLines(1, asm);
    var block := NamespaceLines(0, "Test", TestEnum(), asm);
    assert block == [Line(0, "", "namespace " + "Test"), Line(0, "", "{")] + enum + [Line(0, "", "}")];
    assert block[3..9] == enum[1..7];
  }

  /** Both test values fit the implicit (int) storage. */
  lemma TestEnumInRange()
    ensures BoundsError(TestEnum().entries, Implicit) == None
  {
    var d := TestEnum();
    assert StorageTypeValidator.Validate(Implicit, d.entries[0].value);
    assert StorageTypeValidator.Validate(Implicit, d.entries[1].value);
  }

  lemma TestOutputShape(config: WriterConfig, asm: AssemblyInfo, ucd: CategoryTable)
    requires StandardAscii(ucd)
    ensures CSharpOutput(TestEnum(), "Test", config, Implicit, asm, ucd)
         == Success(CodeText(config, Preamble(asm) + NamespaceLines(0, "Test", TestEnum(), asm)))
  {
    AsciiWordIsValid(ucd, "Test");
    NamespaceWithoutDots(ucd, "Test");
    TestEnumInRange();
  }

  lemma PreambleLength(asm: AssemblyInfo)
    ensures |Preamble(asm)| == 8
  {
  }

  /** Inside namespace `Test`, the enum's declaration, its braces one level deeper
      than the namespace, and the entries `A = 1,` and `B = 2,` two levels deeper
      with one blank line between them. */
  lemma BasicEnumIsPresent(config: WriterConfig, asm: AssemblyInfo, ucd: CategoryTable)
    requires StandardAscii(ucd)
    ensures CSharpOutput(TestEnum(), "Test", config, Implicit, asm, ucd).Success?
    ensures CSharpOutput(TestEnum(), "Test", config, Implicit, asm, ucd).value.lines[11..17]
         == [Line(1, "", "public enum TestEnum"), Line(1, "", "{"), Line(2, "", "A = 1,"), Blank,
             Line(2, "", "B = 2,"), Line(1, "", "}")]
  {
    TestOutputShape(config, asm, ucd);
    var preamble := Preamble(asm);
    var block := NamespaceLines(0, "Test", TestEnum(), asm);
    TestNamespaceBlock(asm);
    PreambleLength(asm);
    assert (preamble + block)[11..17] == block[3..9];
  }
}
