/** The mapper scenarios of JsonMapperTests.cs, with the JSON library and the
    identifier creator fixed only on the inputs each scenario uses. */
module MappingExamples {
  import opened Wrappers
  import opened Decimal
  import opened Definitions
  import opened BuilderExceptions
  import opened Mapping

  const ByName := Context("[*]", "name", "", "")
  const ByNameAndValue := Context("[*]", "name", "value", "")
  const ByNameAndComment := Context("[*]", "name", "", "comment")

  function Named(n: string): Candidate {
    Candidate(Present(n), Absent, Absent)
  }

  function NamedValued(n: string, v: int): Candidate
    requires -0x8000_0000 <= v <= 0x7FFF_FFFF
  {
    Candidate(Present(n), Present(v), Absent)
  }

  /** The creator keeps the single-letter names the scenarios use. */
  predicate KeepsLetters(create: IdentifierCreator) {
    create(Some("A")) == Some("A") && create(Some("B")) == Some("B") && create(Some("C")) == Some("C")
  }

  lemma NamesOfSmallLists()
    ensures Names([]) == {}
  {
  }

  lemma NamesAppend(entries: seq<EnumEntry>, e: EnumEntry)
    ensures Names(entries + [e]) == Names(entries) + {e.name}
  {
    var all := entries + [e];
    assert all[|entries|] == e;
    assert forall i :: 0 <= i < |entries| ==> all[i] == entries[i];
  }

  /** Unparsable text fails with JsonParsingFailure, unwrapped. */
  lemma InvalidJsonFails(read: JsonReader, create: IdentifierCreator)
    requires read("Invalid json", ByName) == Malformed
    ensures MapEnumResult(Some(ByName), "Invalid json", "TestEnum", None, read, create) == Failure(JsonParsingFailure)
  {
  }

  /** A malformed collection path fails with a wrapped library exception. */
  lemma InvalidCollectionPathFails(read: JsonReader, create: IdentifierCreator)
    requires read("[]", Context("Invalid jPath", "name", "", "")) == Parsed(Some(PathError))
    ensures MapEnumResult(Some(Context("Invalid jPath", "name", "", "")), "[]", "TestEnum", None, read, create)
      == Failure(MappingFailure(LibraryFault))
  {
  }

  /** An empty array fails with the builder's EmptyEnumException, wrapped; the enum
      name "Invalid Enum Name" fails the same way, since the builder does not
      validate it. */
  lemma EmptyArrayFails(read: JsonReader, create: IdentifierCreator, enumName: string)
    requires enumName != ""
    requires read("[]", ByName) == Parsed(Some(Selected([])))
    ensures MapEnumResult(Some(ByName), "[]", enumName, None, read, create)
      == Failure(MappingFailure(BuilderFault(EmptyEnumException(enumName))))
  {
  }

  lemma StepA(create: IdentifierCreator)
    requires KeepsLetters(create)
    ensures MapEntryStep("TestEnum", [], ByName, Named("A"), create) == Success([EnumEntry("A", 0, None)])
  {
    NamesOfSmallLists();
  }

  /** Three names without values get the values 0, 1 and 2. */
  lemma BasicEnumIsMapped(create: IdentifierCreator)
    requires KeepsLetters(create)
    ensures MapAll("TestEnum", [], ByName, [Named("A"), Named("B"), Named("C")], create)
      == Success([EnumEntry("A", 0, None), EnumEntry("B", 1, None), EnumEntry("C", 2, None)])
  {
    var cs := [Named("A"), Named("B"), Named("C")];
    var a := [EnumEntry("A", 0, None)];
    var ab := a + [EnumEntry("B", 1, None)];
    var abc := ab + [EnumEntry("C", 2, None)];
    StepA(create);
    assert MapAll("TestEnum", [], ByName, cs, create) == MapAll("TestEnum", a, ByName, cs[1..], create);
    StepB(create);
    assert MapAll("TestEnum", a, ByName, cs[1..], create) == MapAll("TestEnum", ab, ByName, cs[2..], create);
    StepC(create);
    assert MapAll("TestEnum", ab, ByName, cs[2..], create) == MapAll("TestEnum", abc, ByName, [], create);
    assert abc == [EnumEntry("A", 0, None), EnumEntry("B", 1, None), EnumEntry("C", 2, None)];
  }

  lemma StepB(create: IdentifierCreator)
    requires KeepsLetters(create)
    ensures MapEntryStep("TestEnum", [EnumEntry("A", 0, None)], ByName, Named("B"), create)
      == Success([EnumEntry("A", 0, None)] + [EnumEntry("B", 1, None)])
  {
    var a := [EnumEntry("A", 0, None)];
    NamesAppend([], a[0]);
    assert [] + a == a;
  }

  lemma StepC(create: IdentifierCreator)
    requires KeepsLetters(create)
    ensures MapEntryStep("TestEnum", [EnumEntry("A", 0, None)] + [EnumEntry("B", 1, None)], ByName, Named("C"), create)
      == Success([EnumEntry("A", 0, None)] + [EnumEntry("B", 1, None)] + [EnumEntry("C", 2, None)])
  {
    var a := [EnumEntry("A", 0, None)];
    NamesAppend([], a[0]);
    assert [] + a == a;
    NamesAppend(a, EnumEntry("B", 1, None));
  }

  /** A repeated name gets the suffix `_1`. */
  lemma DuplicateNameIsSuffixed(create: IdentifierCreator)
    requires KeepsLetters(create)
    ensures MapAll("TestEnum", [], ByName, [Named("A"), Named("A")], create)
      == Success([EnumEntry("A", 0, None), EnumEntry("A_1", 1, None)])
  {
    var cs := [Named("A"), Named("A")];
    var a := [EnumEntry("A", 0, None)];
    StepA(create);
    assert MapAll("TestEnum", [], ByName, cs, create) == MapAll("TestEnum", a, ByName, cs[1..], create);
    NamesAppend([], a[0]);
    assert [] + a == a;
    assert NatToString(1) == "1";
    assert Suffixed("A", 1) == "A_1";
    assert DisambiguationIndex("A", {"A"}, 0) == 1;
    assert MapEntryStep("TestEnum", a, ByName, Named("A"), create) == Success(a + [EnumEntry("A_1", 1, None)]);
    assert MapAll("TestEnum", a, ByName, cs[1..], create) == MapAll("TestEnum", a + [EnumEntry("A_1", 1, None)], ByName, [], create);
    assert a + [EnumEntry("A_1", 1, None)] == [EnumEntry("A", 0, None), EnumEntry("A_1", 1, None)];
  }

  /** Explicit values are taken from the value path. */
  lemma ExplicitValuesAreRespected(create: IdentifierCreator)
    requires KeepsLetters(create)
    ensures MapAll("TestEnum", [], ByNameAndValue, [NamedValued("A", 10), NamedValued("B", 20)], create)
      == Success([EnumEntry("A", 10, None), EnumEntry("B", 20, None)])
  {
    var cs := [NamedValued("A", 10), NamedValued("B", 20)];
    var a := [EnumEntry("A", 10, None)];
    NamesOfSmallLists();
    assert MapEntryStep("TestEnum", [], ByNameAndValue, cs[0], create) == Success(a);
    assert MapAll("TestEnum", [], ByNameAndValue, cs, create) == MapAll("TestEnum", a, ByNameAndValue, cs[1..], create);
    NamesAppend([], a[0]);
    assert [] + a == a;
    assert MapEntryStep("TestEnum", a, ByNameAndValue, cs[1], create) == Success(a + [EnumEntry("B", 20, None)]);
    assert MapAll("TestEnum", a, ByNameAndValue, cs[1..], create) == MapAll("TestEnum", a + [EnumEntry("B", 20, None)], ByNameAndValue, [], create);
    assert a + [EnumEntry("B", 20, None)] == [EnumEntry("A", 10, None), EnumEntry("B", 20, None)];
  }

  /** Comments are taken from the comment path. */
  lemma CommentsAreParsed(create: IdentifierCreator)
    requires KeepsLetters(create)
    ensures MapAll("TestEnum", [], ByNameAndComment,
                   [Candidate(Present("A"), Absent, Present("This is A")), Candidate(Present("B"), Absent, Present("This is B"))], create)
      == Success([EnumEntry("A", 0, Some("This is A")), EnumEntry("B", 1, Some("This is B"))])
  {
    var cs := [Candidate(Present("A"), Absent, Present("This is A")), Candidate(Present("B"), Absent, Present("This is B"))];
    var a := [EnumEntry("A", 0, Some("This is A"))];
    NamesOfSmallLists();
    assert MapEntryStep("TestEnum", [], ByNameAndComment, cs[0], create) == Success(a);
    assert MapAll("TestEnum", [], ByNameAndComment, cs, create) == MapAll("TestEnum", a, ByNameAndComment, cs[1..], create);
    NamesAppend([], a[0]);
    assert [] + a == a;
    var b := EnumEntry("B", 1, Some("This is B"));
    assert MapEntryStep("TestEnum", a, ByNameAndComment, cs[1], create) == Success(a + [b]);
    assert MapAll("TestEnum", a, ByNameAndComment, cs[1..], create) == MapAll("TestEnum", a + [b], ByNameAndComment, [], create);
    assert a + [b] == [EnumEntry("A", 0, Some("This is A")), b];
  }

  /** Two entries with the value 1 fail with the builder's exception, wrapped. */
  lemma DuplicateValuesFail(create: IdentifierCreator)
    requires KeepsLetters(create)
    ensures MapAll("TestEnum", [], ByNameAndValue, [NamedValued("A", 1), NamedValued("B", 1)], create)
      == Failure(BuilderFault(DuplicateEnumValueException("TestEnum", 1)))
  {
    var cs := [NamedValued("A", 1), NamedValued("B", 1)];
    var a := [EnumEntry("A", 1, None)];
    NamesOfSmallLists();
    assert MapEntryStep("TestEnum", [], ByNameAndValue, cs[0], create) == Success(a);
    assert MapAll("TestEnum", [], ByNameAndValue, cs, create) == MapAll("TestEnum", a, ByNameAndValue, cs[1..], create);
    NamesAppend([], a[0]);
    assert [] + a == a;
    assert HasValue(a, 1);
    assert MapEntryStep("TestEnum", a, ByNameAndValue, cs[1], create) == Failure(BuilderFault(DuplicateEnumValueException("TestEnum", 1)));
  }

  /** A node without a name token is skipped; the entries get no comments, since the
      context has no comment path. */
  lemma EntriesWithoutNamesAreSkipped(create: IdentifierCreator)
    requires KeepsLetters(create)
    ensures MapAll("TestEnum", [], ByNameAndValue,
                   [NamedValued("A", 1), Candidate(Absent, Present(2), Absent), NamedValued("C", 3)], create)
      == Success([EnumEntry("A", 1, None), EnumEntry("C", 3, None)])
  {
    var cs := [NamedValued("A", 1), Candidate(Absent, Present(2), Absent), NamedValued("C", 3)];
    var a := [EnumEntry("A", 1, None)];
    NamesOfSmallLists();
    assert MapEntryStep("TestEnum", [], ByNameAndValue, cs[0], create) == Success(a);
    assert MapAll("TestEnum", [], ByNameAndValue, cs, create) == MapAll("TestEnum", a, ByNameAndValue, cs[1..], create);
    assert MapEntryStep("TestEnum", a, ByNameAndValue, cs[1], create) == Success(a);
    assert MapAll("TestEnum", a, ByNameAndValue, cs[1..], create) == MapAll("TestEnum", a, ByNameAndValue, cs[2..], create);
    NamesAppend([], a[0]);
    assert [] + a == a;
    var c := EnumEntry("C", 3, None);
    assert MapEntryStep("TestEnum", a, ByNameAndValue, cs[2], create) == Success(a + [c]);
    assert MapAll("TestEnum", a, ByNameAndValue, cs[2..], create) == MapAll("TestEnum", a + [c], ByNameAndValue, [], create);
    assert a + [c] == [EnumEntry("A", 1, None), c];
  }
}
