/** What the C# and F# exporters share: the exceptions they raise, the range check
    over the entries, and the header and summary blocks each of them writes. */
module ExportCommon {
  import opened Wrappers
  import opened Integers
  import opened Definitions
  import opened StorageTypes
  import opened StorageTypeValidator
  import opened CodeWriting

  /** OutOfBoundsValueException and InvalidNamespaceException. */
  datatype ExportError = OutOfBoundsValue(storageType: StorageType, value: int) | InvalidNamespace(ns: string)

  /** The name and version of the generating assembly. */
  datatype AssemblyInfo = AssemblyInfo(name: string, version: string)

  /** `!string.IsNullOrEmpty(comment)`. */
  predicate HasText(comment: Option<string>) {
    comment.Some? && comment.value != ""
  }

  /** The position of the first entry whose value the storage type rejects. */
  function FirstOutOfBounds(entries: seq<EnumEntry>, t: StorageType): (r: Option<nat>)
    ensures r.None? <==> forall i :: 0 <= i < |entries| ==> Validate(t, entries[i].value)
    ensures r.Some? ==>
      && r.value < |entries| && !Validate(t, entries[r.value].value)
      && forall j :: 0 <= j < r.value ==> Validate(t, entries[j].value)
  {
    if entries == [] then None
    else if !Validate(t, entries[0].value) then Some(0)
    else match FirstOutOfBounds(entries[1..], t)
      case None => None
      case Some(i) => Some(i + 1)
  }

  /** The error the range check raises, if any. */
  function BoundsError(entries: seq<EnumEntry>, t: StorageType): Option<ExportError> {
    match FirstOutOfBounds(entries, t)
    case None => None
    case Some(i) => Some(OutOfBoundsValue(t, entries[i].value))
  }

  /** The `foreach` over the entries failing the range check: it raises for the first. */
  method CheckBounds(entries: seq<EnumEntry>, t: StorageType) returns (r: Option<ExportError>)
    ensures r == BoundsError(entries, t)
  {
    var i := 0;
    while i < |entries|
      invariant 0 <= i <= |entries|
      invariant forall j :: 0 <= j < i ==> Validate(t, entries[j].value)
    {
      if !Validate(t, entries[i].value) {
        return Some(OutOfBoundsValue(t, entries[i].value));
      }
      i := i + 1;
    }
    return None;
  }

  /** The header's rule: a comment of 80 characters, two slashes then dashes. */
  const Rule: string := "//" + "------------------------------------------------------------------------------"

  /** The five-line header naming the generating assembly. */
  function HeaderLines(depth: nat, asm: AssemblyInfo): seq<Line> {
    [ Line(depth, "", Rule),
      Line(depth, "// ", "<auto-generated>"),
      Line(depth + 1, "// ", "Generated by: " + asm.name + " - " + asm.version),
      Line(depth, "// ", "</auto-generated>"),
      Line(depth, "", Rule) ]
  }

  /** A documentation summary of `text` with its newlines collapsed. */
  function SummaryLines(depth: nat, text: string): seq<Line> {
    [ Line(depth, "", "/// <summary>"),
      Line(depth, "", "/// " + CollapseNewlines(text)),
      Line(depth, "", "/// </summary>") ]
  }

  /** The summary is three lines whatever the comment holds: its text sits on one line. */
  lemma SummaryIsSingleLine(depth: nat, text: string)
    ensures |SummaryLines(depth, text)| == 3
    ensures NoNewlines(SummaryLines(depth, text)[1].text)
  {
    CollapsedHasNoNewlines(text);
    var t := "/// " + CollapseNewlines(text);
    assert forall i :: 4 <= i < |t| ==> t[i] == CollapseNewlines(text)[i - 4];
  }

  method AddHeader(w: CodeWriter, asm: AssemblyInfo)
    modifies w`lines
    ensures w.lines == old(w.lines) + HeaderLines(w.depth, asm)
  {
    w.WriteLine(Rule, "", 0);
    w.WriteLine("<auto-generated>", "// ", 0);
    w.WriteLine("Generated by: " + asm.name + " - " + asm.version, "// ", 1);
    w.WriteLine("</auto-generated>", "// ", 0);
    w.WriteLine(Rule, "", 0);
  }

  method AddSummary(w: CodeWriter, text: string)
    requires text != ""
    modifies w`lines
    ensures w.lines == old(w.lines) + SummaryLines(w.depth, text)
  {
    var singleLine := CollapseNewlines(text);
    w.WriteLine("/// <summary>", "", 0);
    w.WriteLine("/// " + singleLine, "", 0);
    w.WriteLine("/// </summary>", "", 0);
  }

  /** Two storage types that accept every value raise nothing. */
  lemma BoundsErrorOnlyFromValues(entries: seq<EnumEntry>, s: StorageType, t: StorageType)
    requires forall i :: 0 <= i < |entries| ==> Validate(s, entries[i].value) && Validate(t, entries[i].value)
    ensures BoundsError(entries, s) == BoundsError(entries, t) == None
  {
  }

  /** The range check looks at the values only. */
  lemma {:induction false} BoundsErrorDependsOnValues(a: seq<EnumEntry>, b: seq<EnumEntry>, t: StorageType)
    requires |a| == |b| && forall i :: 0 <= i < |a| ==> a[i].value == b[i].value
    ensures FirstOutOfBounds(a, t) == FirstOutOfBounds(b, t)
    ensures BoundsError(a, t) == BoundsError(b, t)
  {
    if a != [] {
      BoundsErrorDependsOnValues(a[1..], b[1..], t);
    }
  }

  /** Counting the lines with a given text. */
  function CountText(lines: seq<Line>, text: string): nat {
    if lines == [] then 0
    else (if lines[0].Line? && lines[0].text == text then 1 else 0) + CountText(lines[1..], text)
  }

  lemma {:induction false} CountTextAppend(a: seq<Line>, b: seq<Line>, text: string)
    ensures CountText(a + b, text) == CountText(a, text) + CountText(b, text)
    decreases |a|
  {
    if a == [] {
      assert a + b == b;
    } else {
      assert (a + b)[0] == a[0] && (a + b)[1..] == a[1..] + b;
      CountTextAppend(a[1..], b, text);
    }
  }
}
