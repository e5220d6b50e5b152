/** The mutable builder of an enum definition (EnumBuilder.cs): an append-only
    entry list whose values are kept distinct, a settable comment, and `Build`,
    which takes an immutable snapshot. */
module Builder {
  import opened Wrappers
  import opened Integers
  import opened Definitions
  import opened BuilderExceptions

  /** The builder's invariant on its entries: names non-empty, values distinct ints. */
  predicate WellFormed(entries: seq<EnumEntry>) {
    && DistinctValues(entries)
    && forall i :: 0 <= i < |entries| ==> entries[i].name != "" && IntMinValue <= entries[i].value <= IntMaxValue
  }

  /** What `PushEntry` does to the entry list: reject an empty name, then a value
      already present, otherwise append. */
  function Push(enumName: string, entries: seq<EnumEntry>, name: string, value: Int32, comment: Option<string>)
    : (r: Result<seq<EnumEntry>, BuilderException>)
  {
    if name == [] then Failure(ArgumentException("Invalid enum-entry name: '" + name + "'", "name"))
    else if HasValue(entries, value) then Failure(DuplicateEnumValueException(enumName, value))
    else Success(entries + [EnumEntry(name, value, comment)])
  }

  /** A push succeeds iff the name is non-empty and the value is new; it then appends
      exactly one entry and keeps the builder's invariant. */
  lemma PushKeepsWellFormed(enumName: string, entries: seq<EnumEntry>, name: string, value: Int32, comment: Option<string>)
    requires WellFormed(entries)
    ensures Push(enumName, entries, name, value, comment).Success? <==> name != [] && !HasValue(entries, value)
    ensures Push(enumName, entries, name, value, comment).Success? ==>
      && WellFormed(Push(enumName, entries, name, value, comment).value)
      && Push(enumName, entries, name, value, comment).value[..|entries|] == entries
      && |Push(enumName, entries, name, value, comment).value| == |entries| + 1
  {
  }

  /** What `Build` returns for a builder in a given state. */
  function BuildResult(enumName: string, entries: seq<EnumEntry>, comment: Option<string>)
    : (r: Result<EnumDefinition, BuilderException>)
  {
    if |entries| == 0 then Failure(EmptyEnumException(enumName))
    else Success(EnumDefinition(enumName, entries, comment))
  }

  class EnumBuilder {
    const name: string
    var entries: seq<EnumEntry>
    /** The settable `Comment` property. */
    var comment: Option<string>

    ghost predicate Valid()
      reads this
    {
      name != [] && WellFormed(entries)
    }

    constructor (name: string)
      requires name != []
      ensures Valid() && this.name == name && entries == [] && comment == None
    {
      this.name := name;
      entries := [];
      comment := None;
    }

    /** `new EnumBuilder(name)`: an empty name raises an ArgumentException; any other
        name is accepted without identifier validation. */
    static method Create(name: string) returns (r: Result<EnumBuilder, BuilderException>)
      ensures r.Failure? <==> name == []
      ensures r.Failure? ==> r.error == ArgumentException("Invalid enum-name: '" + name + "'", "name")
      ensures r.Success? ==>
        && fresh(r.value) && r.value.Valid() && r.value.name == name
        && r.value.entries == [] && r.value.comment == None
    {
      if name == [] {
        return Failure(ArgumentException("Invalid enum-name: '" + name + "'", "name"));
      }
      var b := new EnumBuilder(name);
      return Success(b);
    }

    /** The `Comment` setter. */
    method SetComment(c: Option<string>)
      requires Valid()
      modifies this`comment
      ensures Valid() && comment == c && entries == old(entries)
    {
      comment := c;
    }

    /** `HasEntry(name)`: some entry already carries this name. */
    function HasEntry(entryName: string): (r: bool)
      reads this
      ensures r <==> HasName(entries, entryName)
    {
      IndexOfName(entries, entryName).Some?
    }

    /** `EntryCount`. */
    function EntryCount(): nat
      reads this
    {
      |entries|
    }

    method PushEntry(entryName: string, value: Int32, entryComment: Option<string>)
      returns (r: Outcome<BuilderException>)
      requires Valid()
      modifies this`entries
      ensures Valid()
      ensures r.Pass? <==> Push(name, old(entries), entryName, value, entryComment).Success?
      ensures r.Pass? ==> entries == old(entries) + [EnumEntry(entryName, value, entryComment)]
      ensures r.Fail? ==>
        && entries == old(entries)
        && r.error == Push(name, old(entries), entryName, value, entryComment).error
    {
      if entryName == [] {
        return Fail(ArgumentException("Invalid enum-entry name: '" + entryName + "'", "name"));
      }
      if IndexOfValue(entries, value).Some? {
        return Fail(DuplicateEnumValueException(name, value));
      }
      PushKeepsWellFormed(name, entries, entryName, value, entryComment);
      entries := entries + [EnumEntry(entryName, value, entryComment)];
      return Pass;
    }

    /** Fails with EmptyEnumException exactly when no entry was accepted; otherwise a
        snapshot of the name, the entries in push order and the comment. The builder
        itself is left as it was. */
    method Build() returns (r: Result<EnumDefinition, BuilderException>)
      requires Valid()
      ensures r.Failure? <==> |entries| == 0
      ensures r.Failure? ==> r.error == EmptyEnumException(name)
      ensures r.Success? ==> r.value == EnumDefinition(name, entries, comment) && DistinctValues(r.value.entries)
    {
      if |entries| == 0 {
        return Failure(EmptyEnumException(name));
      }
      return Success(EnumDefinition(name, entries, comment));
    }
  }

  /** One entry to push: name, value and optional comment. */
  datatype PushRequest = PushRequest(name: string, value: Int32, comment: Option<string>)

  /** Pushing a sequence of requests one after the other, stopping at the first error. */
  function PushAll(enumName: string, entries: seq<EnumEntry>, requests: seq<PushRequest>)
    : Result<seq<EnumEntry>, BuilderException>
    decreases |requests|
  {
    if requests == [] then Success(entries)
    else match Push(enumName, entries, requests[0].name, requests[0].value, requests[0].comment)
      case Failure(e) => Failure(e)
      case Success(next) => PushAll(enumName, next, requests[1..])
  }

  function ToEntry(p: PushRequest): EnumEntry {
    EnumEntry(p.name, p.value, p.comment)
  }

  function ToEntries(requests: seq<PushRequest>): (r: seq<EnumEntry>)
    ensures |r| == |requests| && forall i :: 0 <= i < |r| ==> r[i] == ToEntry(requests[i])
  {
    seq(|requests|, i requires 0 <= i < |requests| => ToEntry(requests[i]))
  }

  /** Pushing a sequence succeeds iff every name is non-empty and no value repeats
      (among the requests or against the entries already there); the result is then
      the old entries followed by the requests, in order. */
  lemma {:induction false} PushAllSucceeds(enumName: string, entries: seq<EnumEntry>, requests: seq<PushRequest>)
    requires WellFormed(entries)
    ensures PushAll(enumName, entries, requests).Success? <==>
      (forall i :: 0 <= i < |requests| ==> requests[i].name != []) && DistinctValues(entries + ToEntries(requests))
    ensures PushAll(enumName, entries, requests).Success? ==>
      PushAll(enumName, entries, requests).value == entries + ToEntries(requests)
    decreases |requests|
  {
    if requests != [] {
      var p := requests[0];
      var all := entries + ToEntries(requests);
      assert all == (entries + [ToEntry(p)]) + ToEntries(requests[1..]);
      PushKeepsWellFormed(enumName, entries, p.name, p.value, p.comment);
      var step := Push(enumName, entries, p.name, p.value, p.comment);
      if step.Success? {
        PushAllSucceeds(enumName, step.value, requests[1..]);
        assert forall i :: 1 <= i < |requests| ==> requests[i] == requests[1..][i - 1];
      } else if p.name != [] {
        var k :| 0 <= k < |entries| && entries[k].value == p.value;
        assert all[k].value == all[|entries|].value;
      }
    }
  }

  /** What a successful series of pushes from no entries leaves. */
  lemma PushedEntriesAreRequests(enumName: string, requests: seq<PushRequest>, d: EnumDefinition)
    requires PushAll(enumName, [], requests) == Success(d.entries)
    ensures d.entries == ToEntries(requests) && DistinctValues(d.entries)
  {
    PushAllSucceeds(enumName, [], requests);
    assert [] + ToEntries(requests) == ToEntries(requests);
  }

  /** The `i`-th request's name and value are found, and its value leads back to its name. */
  lemma PushedEntryIsFound(requests: seq<PushRequest>, d: EnumDefinition, i: nat)
    requires d.entries == ToEntries(requests) && DistinctValues(d.entries) && i < |requests|
    ensures HasEntry(d, requests[i].name) && HasEntryWithValue(d, requests[i].value)
    ensures TryGetName(d, requests[i].value) == Some(requests[i].name)
  {
    assert d.entries[i] == ToEntry(requests[i]);
    TryGetNameFinds(d, requests[i].value, requests[i].name);
  }

  /** A name lookup returns the value of the first request carrying that name. */
  lemma FirstNamedEntryGivesValue(requests: seq<PushRequest>, d: EnumDefinition, i: nat)
    requires d.entries == ToEntries(requests) && i < |requests|
    requires forall j :: 0 <= j < i ==> requests[j].name != requests[i].name
    ensures TryGetValue(d, requests[i].name) == Some(requests[i].value as Int64)
  {
    assert d.entries[i] == ToEntry(requests[i]);
    var k := IndexOfName(d.entries, requests[i].name).value;
    assert d.entries[k] == ToEntry(requests[k]);
  }

  /** A name no request carries is not in the definition. */
  lemma UnpushedNameIsAbsent(requests: seq<PushRequest>, d: EnumDefinition, n: string)
    requires d.entries == ToEntries(requests)
    requires forall i :: 0 <= i < |requests| ==> requests[i].name != n
    ensures !HasEntry(d, n) && TryGetValue(d, n) == None
  {
    forall i | 0 <= i < |d.entries|
      ensures d.entries[i].name != n
    {
      assert d.entries[i] == ToEntry(requests[i]);
    }
  }

  /** A value no request carries is not in the definition. */
  lemma UnpushedValueIsAbsent(requests: seq<PushRequest>, d: EnumDefinition, v: int)
    requires d.entries == ToEntries(requests)
    requires forall i :: 0 <= i < |requests| ==> requests[i].value != v
    ensures !HasEntryWithValue(d, v)
  {
    forall i | 0 <= i < |d.entries|
      ensures d.entries[i].value != v
    {
      assert d.entries[i] == ToEntry(requests[i]);
    }
  }

  /** After a successful series of pushes, the built definition reports every pushed
      name and value; a value lookup returns the pushed name; a name lookup returns
      the value of the first request with that name; and a value or a name that was
      never pushed is not found. */
  lemma BuiltDefinitionHasPushedEntries(enumName: string, requests: seq<PushRequest>, d: EnumDefinition,
                                        v: int, n: string)
    requires PushAll(enumName, [], requests) == Success(d.entries)
    ensures forall i :: 0 <= i < |requests| ==>
      HasEntry(d, requests[i].name) && HasEntryWithValue(d, requests[i].value)
      && TryGetName(d, requests[i].value) == Some(requests[i].name)
    ensures forall i :: 0 <= i < |requests| && (forall j :: 0 <= j < i ==> requests[j].name != requests[i].name) ==>
      TryGetValue(d, requests[i].name) == Some(requests[i].value as Int64)
    ensures (forall i :: 0 <= i < |requests| ==> requests[i].value != v) ==> !HasEntryWithValue(d, v)
    ensures (forall i :: 0 <= i < |requests| ==> requests[i].name != n) ==> !HasEntry(d, n) && TryGetValue(d, n) == None
  {
    PushedEntriesAreRequests(enumName, requests, d);
    forall i | 0 <= i < |requests|
      ensures HasEntry(d, requests[i].name) && HasEntryWithValue(d, requests[i].value)
      ensures TryGetName(d, requests[i].value) == Some(requests[i].name)
      ensures (forall j :: 0 <= j < i ==> requests[j].name != requests[i].name) ==>
        TryGetValue(d, requests[i].name) == Some(requests[i].value as Int64)
    {
      PushedEntryIsFound(requests, d, i);
      if forall j :: 0 <= j < i ==> requests[j].name != requests[i].name {
        FirstNamedEntryGivesValue(requests, d, i);
      }
    }
    if forall i :: 0 <= i < |requests| ==> requests[i].value != v {
      UnpushedValueIsAbsent(requests, d, v);
    }
    if forall i :: 0 <= i < |requests| ==> requests[i].name != n {
      UnpushedNameIsAbsent(requests, d, n);
    }
  }
}
