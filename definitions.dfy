/** The immutable enum definition the builder produces and the exporters consume:
    an identifier, entries in push order, and an optional comment. */
module Definitions {
  import opened Wrappers
  import opened Integers

  datatype EnumEntry = EnumEntry(name: string, value: Int64, comment: Option<string>)

  datatype EnumDefinition = EnumDefinition(identifier: string, entries: seq<EnumEntry>, comment: Option<string>)

  predicate HasName(entries: seq<EnumEntry>, name: string) {
    exists i :: 0 <= i < |entries| && entries[i].name == name
  }

  predicate HasValue(entries: seq<EnumEntry>, value: int) {
    exists i :: 0 <= i < |entries| && entries[i].value == value
  }

  /** The builder's invariant: no two entries share a value. */
  predicate DistinctValues(entries: seq<EnumEntry>) {
    forall i, j :: 0 <= i < j < |entries| ==> entries[i].value != entries[j].value
  }

  predicate DistinctNames(entries: seq<EnumEntry>) {
    forall i, j :: 0 <= i < j < |entries| ==> entries[i].name != entries[j].name
  }

  /** Position of the first entry with the given name. */
  function IndexOfName(entries: seq<EnumEntry>, name: string): (r: Option<nat>)
    ensures r.None? <==> !HasName(entries, name)
    ensures r.Some? ==>
      && r.value < |entries| && entries[r.value].name == name
      && forall j :: 0 <= j < r.value ==> entries[j].name != name
  {
    if entries == [] then None
    else if entries[0].name == name then Some(0)
    else match IndexOfName(entries[1..], name)
      case None => None
      case Some(i) => Some(i + 1)
  }

  /** Position of the first entry with the given value. */
  function IndexOfValue(entries: seq<EnumEntry>, value: int): (r: Option<nat>)
    ensures r.None? <==> !HasValue(entries, value)
    ensures r.Some? ==>
      && r.value < |entries| && entries[r.value].value == value
      && forall j :: 0 <= j < r.value ==> entries[j].value != value
  {
    if entries == [] then None
    else if entries[0].value == value then Some(0)
    else match IndexOfValue(entries[1..], value)
      case None => None
      case Some(i) => Some(i + 1)
  }

  /** `definition.HasEntry(string name)`. */
  predicate HasEntry(d: EnumDefinition, name: string) {
    IndexOfName(d.entries, name).Some?
  }

  /** `definition.HasEntry(long value)`. */
  predicate HasEntryWithValue(d: EnumDefinition, value: int) {
    IndexOfValue(d.entries, value).Some?
  }

  /** `definition.TryGetValue(name, out value)`. */
  function TryGetValue(d: EnumDefinition, name: string): Option<Int64> {
    match IndexOfName(d.entries, name)
    case None => None
    case Some(i) => Some(d.entries[i].value)
  }

  /** `definition.TryGetName(value, out name)`. */
  function TryGetName(d: EnumDefinition, value: int): Option<string> {
    match IndexOfValue(d.entries, value)
    case None => None
    case Some(i) => Some(d.entries[i].name)
  }

  /** With distinct values, looking a value up finds exactly the name of the entry holding it. */
  lemma TryGetNameFinds(d: EnumDefinition, value: int, name: string)
    requires DistinctValues(d.entries)
    ensures TryGetName(d, value) == Some(name) <==>
      exists i :: 0 <= i < |d.entries| && d.entries[i].name == name && d.entries[i].value == value
  {
    var r := IndexOfValue(d.entries, value);
    if i :| 0 <= i < |d.entries| && d.entries[i].name == name && d.entries[i].value == value {
      assert r.Some?;
      assert r.value <= i;
    }
  }

  /** With distinct names, looking a name up finds exactly the value of the entry holding it. */
  lemma TryGetValueFinds(d: EnumDefinition, name: string, value: int)
    requires DistinctNames(d.entries)
    ensures TryGetValue(d, name) == Some(value) <==>
      exists i :: 0 <= i < |d.entries| && d.entries[i].name == name && d.entries[i].value == value
  {
    var r := IndexOfName(d.entries, name);
    if i :| 0 <= i < |d.entries| && d.entries[i].name == name && d.entries[i].value == value {
      assert r.Some?;
      assert r.value <= i;
    }
  }

  /** Name and value lookups agree: the value found for a name leads back to that name. */
  lemma LookupsAgree(d: EnumDefinition, name: string)
    requires DistinctValues(d.entries)
    ensures TryGetValue(d, name).Some? ==> TryGetName(d, TryGetValue(d, name).value) == Some(name)
  {
    if TryGetValue(d, name).Some? {
      var i := IndexOfName(d.entries, name).value;
      TryGetNameFinds(d, d.entries[i].value, name);
    }
  }
}
