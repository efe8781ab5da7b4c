/**
 * The PCGFormatter class: an indent size fixed at construction, an indent
 * level that `Format` resets and then updates while it walks the trimmed
 * input one character (or one content run) at a time.
 */
module Formatter {
  import opened Strings
  import opened Cleanup
  import opened Scan

  /** Why `format` does not return a string: `' '.repeat` threw a
      RangeError for a negative count, or the loop stopped advancing at
      index `at` (on `(` or `)`) and would run forever. */
  datatype FormatError = RangeError(count: int) | NoProgress(at: nat)

  datatype Result = Ok(text: string) | Err(error: FormatError)

  /** The inner loop of `format`: it advances from `start` over the
      characters that are not delimiters and returns them with the index of
      the first delimiter (or the end of the input). */
  method ScanContent(input: string, start: nat) returns (content: string, end: nat)
    requires start <= |input|
    ensures start <= end <= |input| && content == input[start..end]
    ensures forall k :: start <= k < end ==> !IsDelimiter(input[k])
    ensures end == |input| || IsDelimiter(input[end])
    ensures end == ContentEnd(input, start)
  {
    end := start;
    content := [];
    while end < |input| && !IsDelimiter(input[end])
      invariant start <= end <= |input|
      invariant content == input[start..end]
      invariant forall k :: start <= k < end ==> !IsDelimiter(input[k])
    {
      content := content + [input[end]];
      end := end + 1;
    }
  }

  /** What a completed `format` returns: tidy text with exactly the
      input's visible characters, every opening bracket ending its line. */
  lemma RenderedTidy(grammar: string, size: int)
    ensures Render(grammar, size).Finished? ==>
      var text := CleanupResult(Render(grammar, size).last.out);
      Tidy(text) && Visible(text) == Visible(grammar) && EndsLines(text, IsOpener)
  {
    if Render(grammar, size).Finished? {
      FormatKeepsVisible(grammar, size);
      FormatOpenersEndLines(grammar, size);
      CleanupTidy(Render(grammar, size).last.out);
    }
  }

  class PCGFormatter {
    var indentSize: int
    var indentLevel: int

    constructor (indentSize: int := 2)
      ensures this.indentSize == indentSize && indentLevel == 0
    {
      this.indentSize := indentSize;
      indentLevel := 0;
    }

    /** `indentLevel * indentSize` spaces, or None where `' '.repeat`
        throws because that product is negative. */
    function GetIndent(): (r: Option<string>)
      reads this
      ensures r.Some? <==> indentLevel * indentSize >= 0
      ensures r.Some? ==> |r.value| == indentLevel * indentSize
      ensures r.Some? ==> forall k :: 0 <= k < |r.value| ==> r.value[k] == ' '
    {
      Spaces(indentLevel * indentSize)
    }

    /** `format(grammarString)`: trims the input, walks it with the loop
        below and cleans up what the loop emitted. Where JavaScript throws
        or never returns, the result is an `Err`; in every case the indent
        level left behind is the scan's last level. */
    method Format(grammarString: string) returns (r: Result)
      modifies this`indentLevel
      ensures match Render(grammarString, indentSize)
        case Finished(last) => r == Ok(CleanupResult(last.out)) && indentLevel == last.level
        case Raised(level, count) => r == Err(RangeError(count)) && indentLevel == level
        case Hangs(at) => r == Err(NoProgress(at.i)) && indentLevel == at.level
      ensures r.Ok? ==> Tidy(r.text) && Visible(r.text) == Visible(grammarString)
      ensures r.Ok? ==> EndsLines(r.text, IsOpener)
    {
      indentLevel := 0;
      var input := Trim(grammarString);
      var result: string := [];
      var i: nat := 0;
      ghost var size := indentSize;
      ghost var outcome := Render(grammarString, size);
      while i < |input|
        invariant i <= |input| && indentSize == size
        invariant Run(input, size, State(i, indentLevel, result)) == outcome
        decreases |input| - i
      {
        ghost var before := State(i, indentLevel, result);
        var step := Advance(input, i, result);
        match step
        case Throw(level, count) =>
          RunThrow(input, size, before, level, count);
          r := Err(RangeError(count));
          return;
        case Next(after) =>
          RunNext(input, size, before, after);
          if after.i == i {
            // every variable is as it was: the loop would repeat forever
            r := Err(NoProgress(i));
            return;
          }
          i, result := after.i, after.out;
      }
      r := Ok(CleanupResult(result));
      RenderedTidy(grammarString, size);
    }

    /** One pass of the body of `format`'s loop, from index `i` with
        `result` emitted so far: it either throws (where `' '.repeat` gets
        a negative count) or leaves the loop variables as `step.next`. */
    method Advance(input: string, i: nat, result: string) returns (step: Step)
      requires i < |input|
      modifies this`indentLevel
      ensures step == StepAt(input, indentSize, State(i, old(indentLevel), result))
      ensures step.Next? ==> indentLevel == step.next.level
      ensures step.Throw? ==> indentLevel == step.level
    {
      var c := input[i];
      if IsOpener(c) {
        var indent := GetIndent();
        if indent.None? {
          return Throw(indentLevel, indentLevel * indentSize);
        }
        indentLevel := indentLevel + 1;
        step := Next(State(i + 1, indentLevel, result + (indent.value + [c] + "\n")));
      } else if IsCloser(c) {
        indentLevel := indentLevel - 1;
        var indent := GetIndent();
        if indent.None? {
          return Throw(indentLevel, indentLevel * indentSize);
        }
        var j := i;
        if j + 1 < |input| && input[j + 1] == ',' {
          // the comma is emitted with the bracket and skipped
          j := j + 1;
          var brk := j + 1 < |input| && input[j + 1] != ' ' && input[j + 1] != ',' && input[j + 1] != '>';
          step := Next(State(j + 1, indentLevel, result + (indent.value + [c, ','] + Break(brk))));
        } else {
          var brk := j + 1 < |input| && input[j + 1] != ' ' && input[j + 1] != ',';
          step := Next(State(j + 1, indentLevel, result + (indent.value + [c] + Break(brk))));
        }
      } else if c == ',' {
        step := Next(State(i + 1, indentLevel, result + ",\n"));
      } else if c == ' ' {
        // spaces are dropped
        step := Next(State(i + 1, indentLevel, result));
      } else {
        // a content run, up to the next delimiter; `i--` then `i++` put
        // the index on that delimiter
        var content, j := ScanContent(input, i);
        if content == [] {
          step := Next(State(i, indentLevel, result));
        } else {
          var indent := GetIndent();
          if indent.None? {
            return Throw(indentLevel, indentLevel * indentSize);
          }
          var brk := j < |input| && BreaksBefore(input[j]);
          step := Next(State(j, indentLevel, result + (indent.value + content + Break(brk))));
        }
      }
    }
  }
}
