/** The scenarios of EnumBuilderTests, stated over the builder class. */
module BuilderExamples {
  import opened Wrappers
  import opened Definitions
  import opened BuilderExceptions
  import opened Builder

  /** The tests' scenarios, as a client of the class's contracts: two pushes, a
      duplicate value, lookups on the built definition, and an empty build. */
  method EnumBuilderScenarios()
  {
    var created := EnumBuilder.Create("TestEnum");
    var b := created.value;
    var pushed := b.PushEntry("A", 1, None);
    assert pushed.Pass?;
    pushed := b.PushEntry("B", 2, None);
    assert pushed.Pass?;
    assert HasValue(b.entries, 2) by {
      assert b.entries[1] == EnumEntry("B", 2, None);
    }
    pushed := b.PushEntry("C", 2, None);
    assert pushed == Fail(DuplicateEnumValueException("TestEnum", 2));
    var built := b.Build();
    var d := built.value;
    assert d.entries == [EnumEntry("A", 1, None), EnumEntry("B", 2, None)];
    assert TryGetName(d, 1) == Some("A");
    assert TryGetValue(d, "B") == Some(2);
    assert !HasEntryWithValue(d, 3);

    var empty := EnumBuilder.Create("TestEnum");
    var failed := empty.value.Build();
    assert failed == Failure(EmptyEnumException("TestEnum"));
  }
}
