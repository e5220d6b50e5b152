/** Mapping JSON to an enum definition (JsonMapper.cs): each node selected by the
    collection path becomes at most one entry, named after the identifier created
    from its name token (suffixed `_1`, `_2`, ... until unused), valued by its value
    token or, failing that, by the number of entries so far. */
module Mapping {
  import opened Wrappers
  import opened Integers
  import opened Decimal
  import opened Identifiers
  import opened Definitions
  import opened BuilderExceptions
  import opened Builder

  /** The JPaths of a mapping; an empty value or comment path means the path is not set. */
  datatype Context = Context(collectionPath: string, namePath: string, valuePath: string, commentPath: string)

  /** What the JSON library yields when one path is looked up in one node and the
      token is read as a `T`: no token, a JSON null, an exception, or a value. */
  datatype Token<+T> = Absent | JsonNull | Faulted | Present(value: T)

  /** One node selected by the collection path, seen through the entry paths. */
  datatype Candidate = Candidate(name: Token<string>, value: Token<Int32>, comment: Token<string>)

  /** At most int.MaxValue candidates, so that the fallback value `EntryCount`, an
      `int` (JsonMapper.cs:165), stays in range for every entry. */
  type CandidateList = s: seq<Candidate> | |s| <= IntMaxValue

  /** The collection path either raises (a malformed JPath) or selects some nodes. */
  datatype Selection = PathError | Selected(candidates: CandidateList)

  /** Deserialising the text: it raises, or yields a token (`None` for the JSON text `null`). */
  datatype ParsedJson = Malformed | Parsed(token: Option<Selection>)

  /** What a MappingFailureException wraps: a builder exception or one raised by the JSON library. */
  datatype Cause = BuilderFault(exception: BuilderException) | LibraryFault

  datatype MappingError =
    | ArgumentNullException(paramName: string)
    | ArgumentException(message: string, paramName: string)
    | JsonParsingFailure
    | MappingFailure(cause: Cause)

  /** `IdentifierCreator.TryCreateIdentifier`; its argument is `None` for a null string. */
  type IdentifierCreator = Option<string> -> Option<string>

  /** `JsonConvert.DeserializeObject` followed by the context's path lookups. */
  type JsonReader = (string, Context) -> ParsedJson

  // ---------------------------------------------------------------------------
  // Name disambiguation

  /** The k-th name tried for identifier `id`: `id`, then `id_1`, `id_2`, ... */
  function Suffixed(id: string, k: nat): (r: string)
    ensures id <= r && (r == id <==> k == 0)
  {
    if k == 0 then id else WithNumberSuffix(id, k)
  }

  lemma SuffixedInjective(id: string, j: nat, k: nat)
    ensures Suffixed(id, j) == Suffixed(id, k) ==> j == k
  {
    if j != 0 && k != 0 && Suffixed(id, j) == Suffixed(id, k) {
      var n := |id| + 1;
      assert NatToString(j) == Suffixed(id, j)[n..];
      assert NatToString(k) == Suffixed(id, k)[n..];
      NatToStringInjective(j, k);
    }
  }

  /** The first k names tried for `id`. */
  function SuffixSet(id: string, k: nat): set<string> {
    if k == 0 then {} else SuffixSet(id, k - 1) + {Suffixed(id, k - 1)}
  }

  lemma {:induction false} SuffixSetSize(id: string, k: nat)
    ensures |SuffixSet(id, k)| == k
    ensures forall x :: x in SuffixSet(id, k) ==> exists j :: 0 <= j < k && x == Suffixed(id, j)
  {
    if k > 0 {
      SuffixSetSize(id, k - 1);
      var x := Suffixed(id, k - 1);
      if x in SuffixSet(id, k - 1) {
        var j :| 0 <= j < k - 1 && x == Suffixed(id, j);
        SuffixedInjective(id, j, k - 1);
        assert false;
      }
    }
  }

  /** Pigeonhole: if the first k names tried are all taken, there are at least k names. */
  lemma SuffixPigeonhole(id: string, names: set<string>, k: nat)
    requires forall j :: 0 <= j < k ==> Suffixed(id, j) in names
    ensures k <= |names|
  {
    SuffixSetSize(id, k);
    var s := SuffixSet(id, k);
    assert s <= names;
    assert names == s + (names - s);
  }

  /** The number of suffixes the loop tries before it finds an unused name; it
      exists because `names` is finite and the names tried are pairwise distinct. */
  function DisambiguationIndex(id: string, names: set<string>, k: nat): (r: nat)
    requires forall j :: 0 <= j < k ==> Suffixed(id, j) in names
    ensures k <= r && Suffixed(id, r) !in names
    ensures forall j :: 0 <= j < r ==> Suffixed(id, j) in names
    decreases |names| - k
  {
    if Suffixed(id, k) !in names then k
    else
      SuffixPigeonhole(id, names, k + 1);
      DisambiguationIndex(id, names, k + 1)
  }

  function Names(entries: seq<EnumEntry>): (r: set<string>)
    ensures forall n :: n in r <==> HasName(entries, n)
  {
    set i | 0 <= i < |entries| :: entries[i].name
  }

  /** The name `ParseName` settles on for identifier `id`: the first of `id`, `id_1`,
      `id_2`, ... that no entry carries. */
  function Unduplicated(entries: seq<EnumEntry>, id: string): string {
    Suffixed(id, DisambiguationIndex(id, Names(entries), 0))
  }

  /** The chosen name is unused, and every name tried before it is used. */
  lemma UnduplicatedIsFirstUnused(entries: seq<EnumEntry>, id: string)
    ensures !HasName(entries, Unduplicated(entries, id))
    ensures exists k: nat ::
      && Unduplicated(entries, id) == Suffixed(id, k)
      && forall j :: 0 <= j < k ==> HasName(entries, Suffixed(id, j))
  {
    var k := DisambiguationIndex(id, Names(entries), 0);
    assert Unduplicated(entries, id) == Suffixed(id, k);
  }

  /** With '_' and the digits admitted, every name tried for a valid identifier is valid. */
  lemma SuffixedKeepsValid(ucd: CategoryTable, id: string, k: nat)
    requires SuffixCharactersAdmitted(ucd) && Validate(ucd, id)
    ensures Validate(ucd, Suffixed(id, k))
  {
    if k > 0 {
      SuffixKeepsValid(ucd, id, k);
    }
  }

  // ---------------------------------------------------------------------------
  // One candidate

  /** The identifier created from a name token, if it was found and converts. */
  function CreatedId(name: Token<string>, create: IdentifierCreator): Option<string> {
    match name
    case JsonNull => create(None)
    case Present(s) => create(Some(s))
    case _ => None
  }

  /** What `ParseName` returns: "" for a candidate to skip, otherwise the entry name. */
  function ChosenName(entries: seq<EnumEntry>, name: Token<string>, create: IdentifierCreator): Result<string, Cause> {
    if name.Faulted? then Failure(LibraryFault)
    else match CreatedId(name, create)
      case None => Success("")
      case Some(id) => Success(Unduplicated(entries, id))
  }

  /** `ParseValue`: the value token when the value path is set and the token reads as
      an int, otherwise the entry count. */
  function ParseValue(ctx: Context, value: Token<Int32>, entryCount: Int32): (r: Result<Int32, Cause>)
    ensures r.Failure? <==> ctx.valuePath != "" && value.Faulted?
    ensures r.Success? && r.value != entryCount ==> ctx.valuePath != "" && value == Present(r.value)
  {
    if ctx.valuePath == "" then Success(entryCount)
    else match value
      case Faulted => Failure(LibraryFault)
      case Present(v) => Success(v)
      case _ => Success(entryCount)
  }

  /** `ParseComment`: the comment token when the comment path is set, otherwise null. */
  function ParseComment(ctx: Context, comment: Token<string>): (r: Result<Option<string>, Cause>)
    ensures r.Failure? <==> ctx.commentPath != "" && comment.Faulted?
    ensures r.Success? && r.value.Some? ==> ctx.commentPath != "" && comment == Present(r.value.value)
  {
    if ctx.commentPath == "" then Success(None)
    else match comment
      case Faulted => Failure(LibraryFault)
      case Present(s) => Success(Some(s))
      case _ => Success(None)
  }

  /** What `MapEntry` does to the builder's entries. */
  function MapEntryStep(enumName: string, entries: seq<EnumEntry>, ctx: Context, c: Candidate, create: IdentifierCreator)
    : (r: Result<seq<EnumEntry>, Cause>)
    requires |entries| <= IntMaxValue
    ensures r.Success? ==> |entries| <= |r.value| <= |entries| + 1 && r.value[..|entries|] == entries
  {
    match ChosenName(entries, c.name, create)
    case Failure(e) => Failure(e)
    case Success(name) =>
      if name == "" then Success(entries)
      else match ParseValue(ctx, c.value, |entries|)
        case Failure(e) => Failure(e)
        case Success(value) => match ParseComment(ctx, c.comment)
          case Failure(e) => Failure(e)
          case Success(comment) => match Push(enumName, entries, name, value, comment)
            case Failure(e) => Failure(BuilderFault(e))
            case Success(next) => Success(next)
  }

  // Reference definitions, independent of the builder state.

  /** A candidate yields an entry: its name token converts to a non-empty identifier. */
  predicate Accepted(c: Candidate, create: IdentifierCreator) {
    !c.name.Faulted? && CreatedId(c.name, create).Some? && CreatedId(c.name, create).value != ""
  }

  /** A candidate makes the JSON library raise while it is mapped. */
  predicate Faults(ctx: Context, c: Candidate, create: IdentifierCreator) {
    || c.name.Faulted?
    || (Accepted(c, create) && ((ctx.valuePath != "" && c.value.Faulted?) || (ctx.commentPath != "" && c.comment.Faulted?)))
  }

  /** The value an accepted candidate gets when `count` entries precede it. */
  function ValueFor(ctx: Context, c: Candidate, count: int): int {
    if ctx.valuePath != "" && c.value.Present? then c.value.value else count
  }

  function CommentFor(ctx: Context, c: Candidate): Option<string> {
    if ctx.commentPath != "" && c.comment.Present? then Some(c.comment.value) else None
  }

  /** The accepted candidates, in order. */
  function Filter(cands: seq<Candidate>, create: IdentifierCreator): (r: seq<Candidate>)
    ensures |r| <= |cands|
    ensures forall k :: 0 <= k < |r| ==> Accepted(r[k], create)
  {
    if cands == [] then []
    else if Accepted(cands[0], create) then [cands[0]] + Filter(cands[1..], create)
    else Filter(cands[1..], create)
  }

  /** One mapping step: a faulting candidate fails; a skipped one changes nothing; an
      accepted one appends exactly one entry with an unused name, the reference value
      and comment, failing only when that value is taken. */
  lemma MapEntryStepResult(enumName: string, entries: seq<EnumEntry>, ctx: Context, c: Candidate, create: IdentifierCreator)
    requires WellFormed(entries) && DistinctNames(entries) && |entries| <= IntMaxValue
    ensures MapEntryStep(enumName, entries, ctx, c, create).Failure? <==>
      Faults(ctx, c, create) || (Accepted(c, create) && HasValue(entries, ValueFor(ctx, c, |entries|)))
    ensures MapEntryStep(enumName, entries, ctx, c, create).Success? ==>
      var next := MapEntryStep(enumName, entries, ctx, c, create).value;
      && WellFormed(next) && DistinctNames(next)
      && (!Accepted(c, create) ==> next == entries)
      && (Accepted(c, create) ==>
        && |next| == |entries| + 1 && next[..|entries|] == entries
        && next[|entries|].name == Unduplicated(entries, CreatedId(c.name, create).value)
        && next[|entries|].value == ValueFor(ctx, c, |entries|)
        && next[|entries|].comment == CommentFor(ctx, c))
  {
    var name := ChosenName(entries, c.name, create);
    if name.Success? && name.value != "" {
      var id := CreatedId(c.name, create).value;
      UnduplicatedIsFirstUnused(entries, id);
      var value := ParseValue(ctx, c.value, |entries|);
      var comment := ParseComment(ctx, c.comment);
      if value.Success? && comment.Success? {
        PushKeepsWellFormed(enumName, entries, name.value, value.value, comment.value);
      }
    }
  }

  /** `MapEnum`'s loop: every candidate in order, stopping at the first failure. */
  function MapAll(enumName: string, entries: seq<EnumEntry>, ctx: Context, cands: seq<Candidate>, create: IdentifierCreator)
    : Result<seq<EnumEntry>, Cause>
    requires |entries| + |cands| <= IntMaxValue
    decreases |cands|
  {
    if cands == [] then Success(entries)
    else match MapEntryStep(enumName, entries, ctx, cands[0], create)
      case Failure(e) => Failure(e)
      case Success(next) => MapAll(enumName, next, ctx, cands[1..], create)
  }

  predicate Distinct(s: seq<int>) {
    forall i, j :: 0 <= i < j < |s| ==> s[i] != s[j]
  }

  function EntryValues(entries: seq<EnumEntry>): (r: seq<int>)
    ensures |r| == |entries| && forall i :: 0 <= i < |r| ==> r[i] == entries[i].value
  {
    seq(|entries|, i requires 0 <= i < |entries| => entries[i].value)
  }

  /** The values the accepted candidates get when `base` entries precede the first. */
  function PlannedValues(ctx: Context, accepted: seq<Candidate>, base: int): (r: seq<int>)
    ensures |r| == |accepted| && forall k :: 0 <= k < |r| ==> r[k] == ValueFor(ctx, accepted[k], base + k)
  {
    seq(|accepted|, k requires 0 <= k < |accepted| => ValueFor(ctx, accepted[k], base + k))
  }

  /** Moving one accepted candidate from the plan into the entries keeps the values. */
  lemma ValuesShift(entries: seq<EnumEntry>, e: EnumEntry, ctx: Context, c: Candidate, accepted: seq<Candidate>)
    requires e.value == ValueFor(ctx, c, |entries|)
    ensures EntryValues(entries + [e]) + PlannedValues(ctx, accepted, |entries| + 1)
         == EntryValues(entries) + PlannedValues(ctx, [c] + accepted, |entries|)
  {
    var a := EntryValues(entries + [e]) + PlannedValues(ctx, accepted, |entries| + 1);
    var b := EntryValues(entries) + PlannedValues(ctx, [c] + accepted, |entries|);
    assert |a| == |b|;
    forall i | 0 <= i < |a| ensures a[i] == b[i] {
      if i > |entries| {
        assert ([c] + accepted)[i - |entries|] == accepted[i - |entries| - 1];
      }
    }
  }

  lemma FilterCons(c: Candidate, rest: seq<Candidate>, create: IdentifierCreator)
    ensures Filter([c] + rest, create) == if Accepted(c, create) then [c] + Filter(rest, create) else Filter(rest, create)
  {
    assert ([c] + rest)[1..] == rest;
  }

  predicate NoFaults(ctx: Context, cands: seq<Candidate>, create: IdentifierCreator) {
    forall i :: 0 <= i < |cands| ==> !Faults(ctx, cands[i], create)
  }

  /** The success condition of one candidate followed by the rest. */
  lemma SucceedsStep(entries: seq<EnumEntry>, next: seq<EnumEntry>, ctx: Context, c: Candidate, rest: seq<Candidate>,
                     create: IdentifierCreator, stepFails: bool, restSucceeds: bool)
    requires stepFails <==> Faults(ctx, c, create) || (Accepted(c, create) && HasValue(entries, ValueFor(ctx, c, |entries|)))
    requires !stepFails ==>
      (restSucceeds <==> NoFaults(ctx, rest, create) && Distinct(EntryValues(next) + PlannedValues(ctx, Filter(rest, create), |next|)))
    requires !stepFails && Accepted(c, create) ==>
      && |next| == |entries| + 1 && next[..|entries|] == entries
      && next[|entries|].value == ValueFor(ctx, c, |entries|)
    requires !stepFails && !Accepted(c, create) ==> next == entries
    ensures (!stepFails && restSucceeds) <==>
      NoFaults(ctx, [c] + rest, create) && Distinct(EntryValues(entries) + PlannedValues(ctx, Filter([c] + rest, create), |entries|))
  {
    var cands := [c] + rest;
    FilterCons(c, rest, create);
    assert NoFaults(ctx, cands, create) <==> !Faults(ctx, c, create) && NoFaults(ctx, rest, create) by {
      assert forall i :: 1 <= i < |cands| ==> cands[i] == rest[i - 1];
    }
    var all := EntryValues(entries) + PlannedValues(ctx, Filter(cands, create), |entries|);
    if Accepted(c, create) {
      if HasValue(entries, ValueFor(ctx, c, |entries|)) {
        var i :| 0 <= i < |entries| && entries[i].value == ValueFor(ctx, c, |entries|);
        assert all[i] == all[|entries|];
      } else if !stepFails {
        assert next == entries + [next[|entries|]];
        ValuesShift(entries, next[|entries|], ctx, c, Filter(rest, create));
      }
    }
  }

  /** The mapping loop succeeds iff no candidate makes the library raise and the values
      the accepted candidates get are distinct from each other and from the existing
      ones. */
  lemma {:induction false} MapAllSucceeds(enumName: string, entries: seq<EnumEntry>, ctx: Context, cands: seq<Candidate>, create: IdentifierCreator)
    requires WellFormed(entries) && DistinctNames(entries) && |entries| + |cands| <= IntMaxValue
    ensures MapAll(enumName, entries, ctx, cands, create).Success? <==>
      NoFaults(ctx, cands, create) && Distinct(EntryValues(entries) + PlannedValues(ctx, Filter(cands, create), |entries|))
    decreases |cands|
  {
    if cands != [] {
      var c, rest := cands[0], cands[1..];
      assert cands == [c] + rest;
      MapEntryStepResult(enumName, entries, ctx, c, create);
      var step := MapEntryStep(enumName, entries, ctx, c, create);
      if step.Failure? {
        SucceedsStep(entries, entries, ctx, c, rest, create, true, false);
      } else {
        MapAllSucceeds(enumName, step.value, ctx, rest, create);
        SucceedsStep(entries, step.value, ctx, c, rest, create, false, MapAll(enumName, step.value, ctx, rest, create).Success?);
      }
    }
  }

  /** Entries from position `base` on correspond one to one to the accepted candidates. */
  predicate Placed(r: seq<EnumEntry>, base: nat, ctx: Context, accepted: seq<Candidate>, create: IdentifierCreator) {
    && |r| == base + |accepted|
    && forall k :: 0 <= k < |accepted| ==>
      && Accepted(accepted[k], create)
      && r[base + k].value == ValueFor(ctx, accepted[k], base + k)
      && r[base + k].comment == CommentFor(ctx, accepted[k])
      && CreatedId(accepted[k].name, create).value <= r[base + k].name
  }

  lemma PlacedStep(entries: seq<EnumEntry>, next: seq<EnumEntry>, r: seq<EnumEntry>, ctx: Context, c: Candidate,
                   later: seq<Candidate>, create: IdentifierCreator)
    requires Accepted(c, create) ==>
      && |next| == |entries| + 1
      && next[|entries|].value == ValueFor(ctx, c, |entries|)
      && next[|entries|].comment == CommentFor(ctx, c)
      && CreatedId(c.name, create).value <= next[|entries|].name
    requires !Accepted(c, create) ==> next == entries
    requires |next| <= |r| && r[..|next|] == next && Placed(r, |next|, ctx, later, create)
    ensures Placed(r, |entries|, ctx, if Accepted(c, create) then [c] + later else later, create)
  {
    var accepted := if Accepted(c, create) then [c] + later else later;
    forall k | 0 <= k < |accepted|
      ensures r[|entries| + k].value == ValueFor(ctx, accepted[k], |entries| + k)
      ensures r[|entries| + k].comment == CommentFor(ctx, accepted[k])
      ensures CreatedId(accepted[k].name, create).value <= r[|entries| + k].name
    {
      if Accepted(c, create) && k == 0 {
        assert r[|entries|] == next[|entries|];
      } else if Accepted(c, create) {
        assert r[|entries| + k] == r[|next| + (k - 1)];
      }
    }
  }

  /** A successful mapping loop appends one entry per accepted candidate, in candidate
      order, with the reference value and comment and a name extending the created
      identifier, and keeps names and values distinct. */
  lemma {:induction false} MapAllAppends(enumName: string, entries: seq<EnumEntry>, ctx: Context, cands: seq<Candidate>, create: IdentifierCreator)
    requires WellFormed(entries) && DistinctNames(entries) && |entries| + |cands| <= IntMaxValue
    requires MapAll(enumName, entries, ctx, cands, create).Success?
    ensures var r := MapAll(enumName, entries, ctx, cands, create).value;
      && WellFormed(r) && DistinctNames(r)
      && Placed(r, |entries|, ctx, Filter(cands, create), create)
      && r[..|entries|] == entries
    decreases |cands|
  {
    if cands != [] {
      var c, rest := cands[0], cands[1..];
      assert cands == [c] + rest;
      FilterCons(c, rest, create);
      MapEntryStepResult(enumName, entries, ctx, c, create);
      var next := MapEntryStep(enumName, entries, ctx, c, create).value;
      MapAllAppends(enumName, next, ctx, rest, create);
      var r := MapAll(enumName, entries, ctx, cands, create).value;
      assert r[..|entries|] == next[..|entries|];
      PlacedStep(entries, next, r, ctx, c, Filter(rest, create), create);
    }
  }

  // ---------------------------------------------------------------------------
  // The whole mapping

  /** The private `MapEnum`: what mapping an already deserialised token yields. */
  function MapTokenResult(ctx: Context, token: Option<Selection>, enumName: string, enumComment: Option<string>,
                          create: IdentifierCreator): Result<EnumDefinition, MappingError>
  {
    if token.None? then Failure(ArgumentNullException("jsonToken"))
    else if enumName == "" then Failure(MappingError.ArgumentException("Invalid enumName: '" + enumName + "'", "enumName"))
    else match token.value
      case PathError => Failure(MappingFailure(LibraryFault))
      case Selected(cands) => match MapAll(enumName, [], ctx, cands, create)
        case Failure(e) => Failure(MappingFailure(e))
        case Success(entries) => match BuildResult(enumName, entries, enumComment)
          case Failure(e) => Failure(MappingFailure(BuilderFault(e)))
          case Success(d) => Success(d)
  }

  /** The public `MapEnum`: argument checks, deserialisation, then the mapping. */
  function MapEnumResult(context: Option<Context>, jsonText: string, enumName: string, enumComment: Option<string>,
                         read: JsonReader, create: IdentifierCreator): Result<EnumDefinition, MappingError>
  {
    if context.None? then Failure(ArgumentNullException("context"))
    else if jsonText == "" then Failure(MappingError.ArgumentException("Invalid json: '" + jsonText + "'", "jsonText"))
    else if enumName == "" then Failure(MappingError.ArgumentException("Invalid enumName: '" + enumName + "'", "enumName"))
    else match read(jsonText, context.value)
      case Malformed => Failure(JsonParsingFailure)
      case Parsed(token) => MapTokenResult(context.value, token, enumName, enumComment, create)
  }

  /** Two indices that are both "first unused" are the same. */
  lemma FirstUnusedUnique(id: string, names: set<string>, m: nat, n: nat)
    requires Suffixed(id, m) !in names && forall j :: 0 <= j < m ==> Suffixed(id, j) in names
    requires Suffixed(id, n) !in names && forall j :: 0 <= j < n ==> Suffixed(id, j) in names
    ensures m == n
  {
  }

  /** `ParseName`: "" when the candidate is to be skipped, otherwise the first of
      `nameId`, `nameId_1`, ... that the builder does not hold. */
  method ParseName(builder: EnumBuilder, name: Token<string>, create: IdentifierCreator) returns (r: Result<string, Cause>)
    requires builder.Valid()
    ensures r == ChosenName(builder.entries, name, create)
  {
    if name.Absent? {
      return Success("");
    }
    if name.Faulted? {
      return Failure(LibraryFault);
    }
    var nameId := create(if name.Present? then Some(name.value) else None);
    if nameId.None? {
      return Success("");
    }
    var id := nameId.value;
    ghost var names := Names(builder.entries);
    var duplicationCount := 1;
    var unduplicated := id;
    while builder.HasEntry(unduplicated)
      invariant 1 <= duplicationCount
      invariant unduplicated == Suffixed(id, duplicationCount - 1)
      invariant forall j :: 0 <= j < duplicationCount - 1 ==> Suffixed(id, j) in names
      decreases |names| + 1 - duplicationCount
    {
      SuffixPigeonhole(id, names, duplicationCount);
      unduplicated := WithNumberSuffix(id, duplicationCount);
      duplicationCount := duplicationCount + 1;
    }
    FirstUnusedUnique(id, names, duplicationCount - 1, DisambiguationIndex(id, names, 0));
    return Success(unduplicated);
  }

  /** `MapEntry`: adds at most one entry to the builder, as `MapEntryStep` says. */
  method MapEntry(ctx: Context, builder: EnumBuilder, c: Candidate, create: IdentifierCreator) returns (r: Outcome<Cause>)
    requires builder.Valid() && |builder.entries| <= IntMaxValue
    modifies builder`entries
    ensures builder.Valid()
    ensures r.Pass? <==> MapEntryStep(builder.name, old(builder.entries), ctx, c, create).Success?
    ensures r.Pass? ==> builder.entries == MapEntryStep(builder.name, old(builder.entries), ctx, c, create).value
    ensures r.Fail? ==> r.error == MapEntryStep(builder.name, old(builder.entries), ctx, c, create).error
  {
    var parsedName := ParseName(builder, c.name, create);
    if parsedName.Failure? {
      return Fail(parsedName.error);
    }
    if parsedName.value == "" {
      return Pass;
    }
    var parsedValue := ParseValue(ctx, c.value, builder.EntryCount());
    if parsedValue.Failure? {
      return Fail(parsedValue.error);
    }
    var parsedComment := ParseComment(ctx, c.comment);
    if parsedComment.Failure? {
      return Fail(parsedComment.error);
    }
    var pushed := builder.PushEntry(parsedName.value, parsedValue.value, parsedComment.value);
    if pushed.Fail? {
      return Fail(BuilderFault(pushed.error));
    }
    return Pass;
  }

  /** The `foreach` of the private `MapEnum`: maps every candidate into the builder,
      stopping at the first failure. */
  method MapCandidates(ctx: Context, builder: EnumBuilder, cands: CandidateList, create: IdentifierCreator)
    returns (r: Outcome<Cause>)
    requires builder.Valid() && builder.entries == []
    modifies builder`entries
    ensures builder.Valid()
    ensures r.Pass? <==> MapAll(builder.name, [], ctx, cands, create).Success?
    ensures r.Pass? ==> builder.entries == MapAll(builder.name, [], ctx, cands, create).value
    ensures r.Fail? ==> r.error == MapAll(builder.name, [], ctx, cands, create).error
  {
    var i := 0;
    while i < |cands|
      invariant 0 <= i <= |cands|
      invariant builder.Valid() && |builder.entries| <= i
      invariant MapAll(builder.name, [], ctx, cands, create) == MapAll(builder.name, builder.entries, ctx, cands[i..], create)
    {
      assert cands[i..][0] == cands[i] && cands[i..][1..] == cands[i + 1..];
      var step := MapEntry(ctx, builder, cands[i], create);
      if step.Fail? {
        return Fail(step.error);
      }
      i := i + 1;
    }
    assert cands[i..] == [];
    return Pass;
  }

  /** The private `MapEnum`: builds the enum from the candidates of a token. */
  method MapToken(ctx: Context, token: Option<Selection>, enumName: string, enumComment: Option<string>,
                  create: IdentifierCreator) returns (r: Result<EnumDefinition, MappingError>)
    ensures r == MapTokenResult(ctx, token, enumName, enumComment, create)
  {
    if token.None? {
      return Failure(ArgumentNullException("jsonToken"));
    }
    if enumName == "" {
      return Failure(MappingError.ArgumentException("Invalid enumName: '" + enumName + "'", "enumName"));
    }
    var created := EnumBuilder.Create(enumName);
    var builder := created.value;
    builder.SetComment(enumComment);
    match token.value
    case PathError =>
      return Failure(MappingFailure(LibraryFault));
    case Selected(cands) =>
      var mapped := MapCandidates(ctx, builder, cands, create);
      if mapped.Fail? {
        return Failure(MappingFailure(mapped.error));
      }
      var built := builder.Build();
      if built.Failure? {
        return Failure(MappingFailure(BuilderFault(built.error)));
      }
      return Success(built.value);
  }

  /** The public `MapEnum`. */
  method MapEnum(context: Option<Context>, jsonText: string, enumName: string, enumComment: Option<string>,
                 read: JsonReader, create: IdentifierCreator) returns (r: Result<EnumDefinition, MappingError>)
    ensures r == MapEnumResult(context, jsonText, enumName, enumComment, read, create)
  {
    if context.None? {
      return Failure(ArgumentNullException("context"));
    }
    if jsonText == "" {
      return Failure(MappingError.ArgumentException("Invalid json: '" + jsonText + "'", "jsonText"));
    }
    if enumName == "" {
      return Failure(MappingError.ArgumentException("Invalid enumName: '" + enumName + "'", "enumName"));
    }
    var parsed := read(jsonText, context.value);
    if parsed.Malformed? {
      return Failure(JsonParsingFailure);
    }
    r := MapToken(context.value, parsed.token, enumName, enumComment, create);
  }

  // ---------------------------------------------------------------------------
  // Properties of the whole mapping

  /** Once a token has been obtained, every failure reaches the caller wrapped in a
      MappingFailureException; only the argument checks and the parse fail unwrapped. */
  lemma FailuresAfterParsingAreWrapped(context: Option<Context>, jsonText: string, enumName: string,
                                       enumComment: Option<string>, read: JsonReader, create: IdentifierCreator)
    requires MapEnumResult(context, jsonText, enumName, enumComment, read, create).Failure?
    ensures var e := MapEnumResult(context, jsonText, enumName, enumComment, read, create).error;
      !e.MappingFailure? <==>
        || context.None? || jsonText == "" || enumName == ""
        || read(jsonText, context.value).Malformed? || read(jsonText, context.value).token.None?
  {
  }

  /** The token-level mapping succeeds iff no candidate faults, at least one is
      accepted and the planned values are distinct. */
  lemma TokenMappingSucceeds(ctx: Context, enumName: string, enumComment: Option<string>,
                             create: IdentifierCreator, cands: CandidateList)
    requires enumName != ""
    ensures MapTokenResult(ctx, Some(Selected(cands)), enumName, enumComment, create).Success? <==>
      && NoFaults(ctx, cands, create) && |Filter(cands, create)| > 0
      && Distinct(PlannedValues(ctx, Filter(cands, create), 0))
  {
    var planned := PlannedValues(ctx, Filter(cands, create), 0);
    MapAllSucceeds(enumName, [], ctx, cands, create);
    assert EntryValues([]) + planned == planned;
    var m := MapAll(enumName, [], ctx, cands, create);
    if m.Success? {
      MapAllAppends(enumName, [], ctx, cands, create);
      assert |m.value| == |Filter(cands, create)|;
    }
  }

  /** A successful token-level mapping holds one entry per accepted candidate. */
  lemma TokenMappingDefinition(ctx: Context, enumName: string, enumComment: Option<string>,
                               create: IdentifierCreator, cands: CandidateList)
    requires enumName != ""
    requires MapTokenResult(ctx, Some(Selected(cands)), enumName, enumComment, create).Success?
    ensures var d := MapTokenResult(ctx, Some(Selected(cands)), enumName, enumComment, create).value;
      && d.identifier == enumName && d.comment == enumComment
      && WellFormed(d.entries) && DistinctNames(d.entries)
      && Placed(d.entries, 0, ctx, Filter(cands, create), create)
  {
    MapAllAppends(enumName, [], ctx, cands, create);
  }

  /** A mapping of selected candidates succeeds iff none of them makes the library
      raise, at least one is accepted, and the accepted ones get distinct values. The
      definition then has the enum's name and comment and one entry per accepted
      candidate, in candidate order, with pairwise distinct names and values. */
  lemma MappingSucceeds(ctx: Context, jsonText: string, enumName: string, enumComment: Option<string>,
                        read: JsonReader, create: IdentifierCreator, cands: CandidateList)
    requires jsonText != "" && enumName != ""
    requires read(jsonText, ctx) == Parsed(Some(Selected(cands)))
    ensures MapEnumResult(Some(ctx), jsonText, enumName, enumComment, read, create).Success? <==>
      && NoFaults(ctx, cands, create) && |Filter(cands, create)| > 0
      && Distinct(PlannedValues(ctx, Filter(cands, create), 0))
    ensures MapEnumResult(Some(ctx), jsonText, enumName, enumComment, read, create).Success? ==>
      var d := MapEnumResult(Some(ctx), jsonText, enumName, enumComment, read, create).value;
      && d.identifier == enumName && d.comment == enumComment
      && WellFormed(d.entries) && DistinctNames(d.entries)
      && Placed(d.entries, 0, ctx, Filter(cands, create), create)
  {
    var r := MapTokenResult(ctx, Some(Selected(cands)), enumName, enumComment, create);
    assert MapEnumResult(Some(ctx), jsonText, enumName, enumComment, read, create) == r;
    TokenMappingSucceeds(ctx, enumName, enumComment, create, cands);
    if r.Success? {
      TokenMappingDefinition(ctx, enumName, enumComment, create, cands);
    }
  }

  /** Without a value path the accepted candidates are numbered 0, 1, 2, ... */
  lemma ImplicitValuesAreIndices(ctx: Context, accepted: seq<Candidate>)
    requires ctx.valuePath == ""
    ensures forall k :: 0 <= k < |accepted| ==> PlannedValues(ctx, accepted, 0)[k] == k
    ensures Distinct(PlannedValues(ctx, accepted, 0))
  {
  }

  /** A selection in which no candidate is accepted, empty or not, fails with the
      builder's EmptyEnumException, wrapped. */
  lemma NothingAcceptedFails(ctx: Context, enumName: string, enumComment: Option<string>,
                             create: IdentifierCreator, cands: CandidateList)
    requires enumName != "" && NoFaults(ctx, cands, create) && Filter(cands, create) == []
    ensures MapTokenResult(ctx, Some(Selected(cands)), enumName, enumComment, create)
      == Failure(MappingFailure(BuilderFault(EmptyEnumException(enumName))))
  {
    MapAllSucceeds(enumName, [], ctx, cands, create);
    assert EntryValues([]) + PlannedValues(ctx, [], 0) == [];
    var m := MapAll(enumName, [], ctx, cands, create);
    assert m.Success?;
    MapAllAppends(enumName, [], ctx, cands, create);
    assert |m.value| == 0;
    assert BuildResult(enumName, m.value, enumComment) == Failure(EmptyEnumException(enumName));
  }

  /** When the identifier creator only yields valid identifiers and the category table
      admits '_' and the digits, every mapped entry name is a valid identifier. */
  lemma {:induction false} MappedNamesAreValid(ucd: CategoryTable, enumName: string, entries: seq<EnumEntry>, ctx: Context,
                                               cands: seq<Candidate>, create: IdentifierCreator)
    requires SuffixCharactersAdmitted(ucd)
    requires forall x :: create(x).Some? && create(x).value != "" ==> Validate(ucd, create(x).value)
    requires WellFormed(entries) && DistinctNames(entries) && |entries| + |cands| <= IntMaxValue
    requires forall i :: 0 <= i < |entries| ==> Validate(ucd, entries[i].name)
    requires MapAll(enumName, entries, ctx, cands, create).Success?
    ensures forall i :: 0 <= i < |MapAll(enumName, entries, ctx, cands, create).value| ==>
      Validate(ucd, MapAll(enumName, entries, ctx, cands, create).value[i].name)
    decreases |cands|
  {
    if cands != [] {
      var c := cands[0];
      MapEntryStepResult(enumName, entries, ctx, c, create);
      var next := MapEntryStep(enumName, entries, ctx, c, create).value;
      if Accepted(c, create) {
        var id := CreatedId(c.name, create).value;
        assert Validate(ucd, id);
        SuffixedKeepsValid(ucd, id, DisambiguationIndex(id, Names(entries), 0));
        assert next == entries + [next[|entries|]];
      }
      MappedNamesAreValid(ucd, enumName, next, ctx, cands[1..], create);
    }
  }
}
