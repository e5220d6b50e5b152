/** The line-oriented view of the code builder the exporters drive: each written
    line keeps its indentation depth, an optional prefix written before the
    indentation, and its text. How depths become tabs or spaces and which newline
    ends a line is left to the configuration record and not rendered here. */
module CodeWriting {
  datatype IndentMode = Tabs | Spaces
  datatype NewlineMode = Unix | Windows

  datatype WriterConfig = WriterConfig(indentMode: IndentMode, indentSize: int, newlineMode: NewlineMode)

  datatype Line = Line(depth: nat, prefix: string, text: string) | Blank

  /** What the code builder has produced: its configuration and its lines. */
  datatype CodeText = CodeText(config: WriterConfig, lines: seq<Line>)

  class CodeWriter {
    const config: WriterConfig
    var lines: seq<Line>
    var depth: nat

    constructor (config: WriterConfig)
      ensures this.config == config && lines == [] && depth == 0
    {
      this.config := config;
      lines := [];
      depth := 0;
    }

    /** Writes `text` at the current depth plus `additionalIndent`. */
    method WriteLine(text: string, prefix: string, additionalIndent: nat)
      modifies this`lines
      ensures lines == old(lines) + [Line(depth + additionalIndent, prefix, text)]
    {
      lines := lines + [Line(depth + additionalIndent, prefix, text)];
    }

    method WriteEmptyLine()
      modifies this`lines
      ensures lines == old(lines) + [Blank]
    {
      lines := lines + [Blank];
    }

    method BeginIndent()
      modifies this`depth
      ensures depth == old(depth) + 1
    {
      depth := depth + 1;
    }

    method EndIndent()
      requires depth > 0
      modifies this`depth
      ensures depth == old(depth) - 1
    {
      depth := depth - 1;
    }

    /** `Build`: the text produced so far. */
    method Build() returns (r: CodeText)
      ensures r == CodeText(config, lines)
    {
      return CodeText(config, lines);
    }
  }

  // ---------------------------------------------------------------------------
  // Summary text: `Regex.Replace(text, "(\n|\r)+", " ")`

  predicate IsNewline(c: char) {
    c == '\n' || c == '\r'
  }

  predicate NoNewlines(s: string) {
    forall i :: 0 <= i < |s| ==> !IsNewline(s[i])
  }

  /** `s` without its leading run of newline characters. */
  function DropNewlines(s: string): (r: string)
    ensures |r| <= |s| && r == s[|s| - |r|..]
    ensures r == [] || !IsNewline(r[0])
    ensures forall i :: 0 <= i < |s| - |r| ==> IsNewline(s[i])
  {
    if s != [] && IsNewline(s[0]) then DropNewlines(s[1..]) else s
  }

  /** Each maximal run of '\n' and '\r' replaced by one space. */
  function CollapseNewlines(s: string): string
    decreases |s|
  {
    if s == [] then []
    else if IsNewline(s[0]) then " " + CollapseNewlines(DropNewlines(s[1..]))
    else [s[0]] + CollapseNewlines(s[1..])
  }

  /** The collapsed text holds no newline character. */
  lemma {:induction false} CollapsedHasNoNewlines(s: string)
    ensures NoNewlines(CollapseNewlines(s))
    decreases |s|
  {
    if s != [] {
      if IsNewline(s[0]) {
        CollapsedHasNoNewlines(DropNewlines(s[1..]));
      } else {
        CollapsedHasNoNewlines(s[1..]);
      }
    }
  }

  /** Text without newlines is left as it is. */
  lemma {:induction false} CollapseKeepsSingleLines(s: string)
    requires NoNewlines(s)
    ensures CollapseNewlines(s) == s
    decreases |s|
  {
    if s != [] {
      CollapseKeepsSingleLines(s[1..]);
    }
  }

  /** Collapsing twice is collapsing once. */
  lemma CollapseIdempotent(s: string)
    ensures CollapseNewlines(CollapseNewlines(s)) == CollapseNewlines(s)
  {
    CollapsedHasNoNewlines(s);
    CollapseKeepsSingleLines(CollapseNewlines(s));
  }

  /** A line of text, a run of newlines and the rest: the run becomes one space. */
  lemma {:induction false} CollapseRun(line: string, run: string, rest: string)
    requires NoNewlines(line) && run != [] && forall i :: 0 <= i < |run| ==> IsNewline(run[i])
    requires rest == [] || !IsNewline(rest[0])
    ensures CollapseNewlines(line + run + rest) == line + " " + CollapseNewlines(rest)
    decreases |line|
  {
    if line == [] {
      assert line + run + rest == run + rest;
      CollapseLeadingRun(run, rest);
    } else {
      var tail := CollapseNewlines(rest);
      assert line + run + rest == [line[0]] + (line[1..] + run + rest);
      CollapseKeepsCharacter(line[0], line[1..] + run + rest);
      CollapseRun(line[1..], run, rest);
      assert [line[0]] + (line[1..] + " " + tail) == line + " " + tail;
    }
  }

  /** A character other than a newline is kept as it is. */
  lemma CollapseKeepsCharacter(c: char, t: string)
    requires !IsNewline(c)
    ensures CollapseNewlines([c] + t) == [c] + CollapseNewlines(t)
  {
    assert ([c] + t)[0] == c && ([c] + t)[1..] == t;
  }

  /** A run of newlines at the front becomes one space. */
  lemma CollapseLeadingRun(run: string, rest: string)
    requires run != [] && forall i :: 0 <= i < |run| ==> IsNewline(run[i])
    requires rest == [] || !IsNewline(rest[0])
    ensures CollapseNewlines(run + rest) == " " + CollapseNewlines(rest)
  {
    assert (run + rest)[0] == run[0];
    assert (run + rest)[1..] == run[1..] + rest;
    DropRun(run[1..], rest);
  }

  lemma {:induction false} DropRun(run: string, rest: string)
    requires forall i :: 0 <= i < |run| ==> IsNewline(run[i])
    requires rest == [] || !IsNewline(rest[0])
    ensures DropNewlines(run + rest) == rest
    decreases |run|
  {
    if run != [] {
      assert (run + rest)[1..] == run[1..] + rest;
      DropRun(run[1..], rest);
    }
  }
}
