/**
 * The character-level pass of PCGFormatter.format as a pure step
 * function. `StepAt` is one iteration of the `while (i < input.length)`
 * loop: the state is the index `i`, the indent level and the text emitted
 * so far. `Run` repeats it to the end of the input, to the first
 * RangeError thrown by `' '.repeat`, or to the first iteration that
 * leaves the state unchanged (on `(` or `)`), after which the loop would
 * repeat that same iteration forever.
 */
module Scan {
  import opened Strings
  import opened Cleanup

  predicate IsOpener(c: char) { c == '<' || c == '[' || c == '{' }

  predicate IsCloser(c: char) { c == '>' || c == ']' || c == '}' }

  predicate IsParen(c: char) { c == '(' || c == ')' }

  /** The characters that end a content run: `'<>[]{}(), '`. */
  predicate IsDelimiter(c: char) {
    IsOpener(c) || IsCloser(c) || IsParen(c) || c == ',' || c == ' '
  }

  /** The characters before which a content run ends its line: `'<[{('`. */
  predicate BreaksBefore(c: char) { IsOpener(c) || c == '(' }

  /** The characters the formatter inserts: it adds spaces and line breaks only. */
  predicate IsLayout(c: char) { c == ' ' || c == '\n' }

  predicate NotLayout(c: char) { !IsLayout(c) }

  function Delta(c: char): int {
    if IsOpener(c) then 1 else if IsCloser(c) then -1 else 0
  }

  /** Openers minus closers in `s`, whatever their kinds. */
  function Depth(s: string): int {
    if s == [] then 0 else Depth(s[..|s| - 1]) + Delta(s[|s| - 1])
  }

  /** No prefix of `s` closes more brackets than it opens. */
  predicate PrefixBalanced(s: string) {
    forall k :: 0 <= k <= |s| ==> Depth(s[..k]) >= 0
  }

  /** Where the content run starting at `i` ends: the first delimiter at or
      after `i`, or the end of the input. */
  function ContentEnd(input: string, i: nat): (j: nat)
    requires i <= |input|
    ensures i <= j <= |input|
    ensures forall k :: i <= k < j ==> !IsDelimiter(input[k])
    ensures j == |input| || IsDelimiter(input[j])
    decreases |input| - i
  {
    if i == |input| || IsDelimiter(input[i]) then i else ContentEnd(input, i + 1)
  }

  datatype State = State(i: nat, level: int, out: string)

  datatype Step = Next(next: State) | Throw(level: int, count: int)

  datatype Outcome = Finished(last: State) | Raised(level: int, count: int) | Hangs(at: State)

  function Break(b: bool): string { if b then "\n" else "" }

  /** One iteration of the loop body, from the state at the top of the loop
      to the state at the top of the next iteration. `Throw` carries the
      indent level when `' '.repeat` throws and the count it was given. */
  function StepAt(input: string, size: int, s: State): (r: Step)
    requires s.i < |input|
    ensures r.Next? ==> s.i <= r.next.i <= |input|
  {
    var c := input[s.i];
    if IsOpener(c) then
      var indent := Spaces(s.level * size);
      if indent.None? then Throw(s.level, s.level * size)
      else Next(State(s.i + 1, s.level + 1, s.out + (indent.value + [c] + "\n")))
    else if IsCloser(c) then
      var level := s.level - 1;
      var indent := Spaces(level * size);
      if indent.None? then Throw(level, level * size)
      else
        if s.i + 1 < |input| && input[s.i + 1] == ',' then
          // the comma is emitted here and skipped over
          var j := s.i + 1;
          var brk := j + 1 < |input| && input[j + 1] != ' ' && input[j + 1] != ',' && input[j + 1] != '>';
          Next(State(j + 1, level, s.out + (indent.value + [c, ','] + Break(brk))))
        else
          var brk := s.i + 1 < |input| && input[s.i + 1] != ' ' && input[s.i + 1] != ',';
          Next(State(s.i + 1, level, s.out + (indent.value + [c] + Break(brk))))
    else if c == ',' then
      Next(State(s.i + 1, s.level, s.out + ",\n"))
    else if c == ' ' then
      Next(State(s.i + 1, s.level, s.out))
    else
      var j := ContentEnd(input, s.i);
      if j == s.i then
        // empty content: `i--` then `i++` leave every variable as it was
        Next(s)
      else
        var indent := Spaces(s.level * size);
        if indent.None? then Throw(s.level, s.level * size)
        else
          var brk := j < |input| && BreaksBefore(input[j]);
          Next(State(j, s.level, s.out + (indent.value + input[s.i..j] + Break(brk))))
  }

  function Run(input: string, size: int, s: State): (r: Outcome)
    requires s.i <= |input|
    ensures r.Finished? ==> r.last.i == |input|
    ensures r.Hangs? ==> s.i <= r.at.i < |input| && StepAt(input, size, r.at) == Next(r.at)
    decreases |input| - s.i
  {
    if s.i == |input| then Finished(s)
    else
      match StepAt(input, size, s)
      case Throw(level, count) => Raised(level, count)
      case Next(t) => if t.i == s.i then Hangs(s) else Run(input, size, t)
  }

  /** The whole scan of `format(grammar)`: trim, then loop from index 0 at
      indent level 0 with nothing emitted. */
  function Render(grammar: string, size: int): (r: Outcome)
    ensures r.Finished? ==> r.last.i == |Trim(grammar)|
    ensures r.Hangs? ==> r.at.i < |Trim(grammar)| && StepAt(Trim(grammar), size, r.at) == Next(r.at)
  {
    Run(Trim(grammar), size, State(0, 0, []))
  }

  // ---------------------------------------------------------------------
  // Run, one iteration at a time

  lemma RunNext(input: string, size: int, s: State, t: State)
    requires s.i < |input| && StepAt(input, size, s) == Next(t)
    ensures t.i != s.i ==> Run(input, size, s) == Run(input, size, t)
    ensures t.i == s.i ==> t == s && Run(input, size, s) == Hangs(s)
  {
  }

  lemma RunThrow(input: string, size: int, s: State, level: int, count: int)
    requires s.i < |input| && StepAt(input, size, s) == Throw(level, count)
    ensures Run(input, size, s) == Raised(level, count)
  {
  }

  // ---------------------------------------------------------------------
  // Depth

  lemma DepthSnoc(s: string, i: nat)
    requires i < |s|
    ensures Depth(s[..i + 1]) == Depth(s[..i]) + Delta(s[i])
  {
    assert s[..i + 1][..i] == s[..i];
  }

  lemma {:induction false} DepthFlat(s: string, i: nat, j: nat)
    requires i <= j <= |s|
    requires forall k :: i <= k < j ==> Delta(s[k]) == 0
    ensures Depth(s[..j]) == Depth(s[..i])
    decreases j - i
  {
    if i < j {
      DepthSnoc(s, j - 1);
      DepthFlat(s, i, j - 1);
    }
  }

  // ---------------------------------------------------------------------
  // One step

  /** Every iteration moves `i` forward, except on `(` or `)`, where it
      changes nothing at all. */
  lemma StepProgress(input: string, size: int, s: State)
    requires s.i < |input|
    ensures IsParen(input[s.i]) ==> StepAt(input, size, s) == Next(s)
    ensures !IsParen(input[s.i]) && StepAt(input, size, s).Next? ==> StepAt(input, size, s).next.i > s.i
    ensures StepAt(input, size, s).Next? ==>
      forall m :: s.i <= m < StepAt(input, size, s).next.i ==> !IsParen(input[m])
  {
  }

  /** The indent level stays equal to the depth of the consumed input; a
      throw happens only at a negative repeat count, at a level that is the
      depth of a prefix; and without a throw, a step from a non-negative
      level passes only non-negative prefixes when the indent size is
      positive. */
  predicate DepthStep(input: string, size: int, s: State)
    requires s.i < |input|
  {
    match StepAt(input, size, s)
    case Next(t) =>
      t.level == Depth(input[..t.i])
      && (size > 0 && s.level >= 0 ==> forall m :: s.i < m <= t.i ==> Depth(input[..m]) >= 0)
    case Throw(level, count) =>
      count == level * size && count < 0
      && (level == Depth(input[..s.i]) || level == Depth(input[..s.i + 1]))
  }

  lemma StepDepth(input: string, size: int, s: State)
    requires s.i < |input| && s.level == Depth(input[..s.i])
    ensures DepthStep(input, size, s)
  {
    var c := input[s.i];
    if IsCloser(c) {
      CloserDepth(input, size, s);
    } else if IsOpener(c) || c == ',' || c == ' ' {
      DepthSnoc(input, s.i);
    } else {
      ContentDepth(input, size, s);
    }
  }

  lemma CloserDepth(input: string, size: int, s: State)
    requires s.i < |input| && s.level == Depth(input[..s.i]) && IsCloser(input[s.i])
    ensures DepthStep(input, size, s)
  {
    DepthSnoc(input, s.i);
    var level := s.level - 1;
    if s.i + 1 < |input| && input[s.i + 1] == ',' {
      DepthSnoc(input, s.i + 1);
    }
    if size > 0 && level * size >= 0 {
      FactorSign(level, size);
    }
  }

  lemma FactorSign(a: int, b: int)
    requires b > 0 && a * b >= 0
    ensures a >= 0
  {
  }

  lemma ContentDepth(input: string, size: int, s: State)
    requires s.i < |input| && s.level == Depth(input[..s.i])
    requires var c := input[s.i]; !IsOpener(c) && !IsCloser(c) && c != ',' && c != ' '
    ensures DepthStep(input, size, s)
  {
    var j := ContentEnd(input, s.i);
    forall m | s.i <= m <= j ensures Depth(input[..m]) == s.level {
      DepthFlat(input, s.i, m);
    }
  }

  /** The emitted text gains exactly the consumed input minus layout, and
      every opening bracket it contains is followed by a line break. */
  predicate OutputStep(input: string, s: State, t: State)
    requires s.i <= t.i <= |input|
  {
    OpenersBreak(t.out) && Keep(t.out, NotLayout) == Keep(s.out, NotLayout) + Keep(input[s.i..t.i], NotLayout)
  }

  lemma StepOutput(input: string, size: int, s: State)
    requires s.i < |input| && OpenersBreak(s.out)
    ensures StepAt(input, size, s).Next? ==> OutputStep(input, s, StepAt(input, size, s).next)
  {
    var c := input[s.i];
    if StepAt(input, size, s).Next? {
      if IsOpener(c) {
        OpenerOutput(input, size, s);
      } else if IsCloser(c) {
        CloserOutput(input, size, s);
      } else if c == ',' || c == ' ' {
        LayoutOutput(input, size, s);
      } else {
        ContentOutput(input, size, s);
      }
    }
  }

  lemma OpenerOutput(input: string, size: int, s: State)
    requires s.i < |input| && OpenersBreak(s.out) && IsOpener(input[s.i])
    requires StepAt(input, size, s).Next?
    ensures OutputStep(input, s, StepAt(input, size, s).next)
  {
    var c := input[s.i];
    var indent := Spaces(s.level * size).value;
    var t := StepAt(input, size, s).next;
    assert t.i == s.i + 1 && t.out == s.out + (indent + [c] + "\n");
    assert input[s.i..t.i] == [c];
    PieceAfter(s.out, indent, [c], "\n");
  }

  lemma LayoutOutput(input: string, size: int, s: State)
    requires s.i < |input| && OpenersBreak(s.out) && (input[s.i] == ',' || input[s.i] == ' ')
    ensures StepAt(input, size, s).Next? && OutputStep(input, s, StepAt(input, size, s).next)
  {
    assert input[s.i..s.i + 1] == [input[s.i]];
    if input[s.i] == ',' {
      CommaOutput(s.out);
    } else {
      KeepChars([' ']);
      PieceAppend(s.out, []);
    }
  }

  /** The line break a comma adds is layout: it keeps the visible text and
      the breaks after openers. */
  lemma CommaOutput(out: string)
    requires OpenersBreak(out)
    ensures OpenersBreak(out + ",\n")
    ensures Keep(out + ",\n", NotLayout) == Keep(out, NotLayout) + Keep([','], NotLayout)
  {
    KeepChars(",\n");
    KeepChars([',']);
    PieceAppend(out, ",\n");
  }

  lemma ContentOutput(input: string, size: int, s: State)
    requires s.i < |input| && OpenersBreak(s.out)
    requires var c := input[s.i]; !IsOpener(c) && !IsCloser(c) && c != ',' && c != ' '
    requires StepAt(input, size, s).Next?
    ensures OutputStep(input, s, StepAt(input, size, s).next)
  {
    var j := ContentEnd(input, s.i);
    if j == s.i {
      assert input[s.i..j] == [];
    } else {
      var indent := Spaces(s.level * size).value;
      var brk := Break(j < |input| && BreaksBefore(input[j]));
      var t := StepAt(input, size, s).next;
      assert t.i == j && t.out == s.out + (indent + input[s.i..j] + brk);
      PieceAfter(s.out, indent, input[s.i..j], brk);
    }
  }

  lemma CloserOutput(input: string, size: int, s: State)
    requires s.i < |input| && OpenersBreak(s.out) && IsCloser(input[s.i])
    requires StepAt(input, size, s).Next?
    ensures OutputStep(input, s, StepAt(input, size, s).next)
  {
    if s.i + 1 < |input| && input[s.i + 1] == ',' {
      CloserCommaOutput(input, size, s);
    } else {
      CloserAloneOutput(input, size, s);
    }
  }

  /** A closing bracket with the comma after it. */
  lemma CloserCommaOutput(input: string, size: int, s: State)
    requires s.i + 1 < |input| && OpenersBreak(s.out) && IsCloser(input[s.i]) && input[s.i + 1] == ','
    requires StepAt(input, size, s).Next?
    ensures StepAt(input, size, s).next.i == s.i + 2
    ensures OutputStep(input, s, StepAt(input, size, s).next)
  {
    var c := input[s.i];
    var indent := Spaces((s.level - 1) * size).value;
    var brk := Break(s.i + 2 < |input| && input[s.i + 2] != ' ' && input[s.i + 2] != ',' && input[s.i + 2] != '>');
    var t := StepAt(input, size, s).next;
    assert t.i == s.i + 2 && t.out == s.out + (indent + [c, ','] + brk);
    assert input[s.i..t.i] == [c, ','];
    PieceAfter(s.out, indent, [c, ','], brk);
  }

  /** A closing bracket without a comma after it. */
  lemma CloserAloneOutput(input: string, size: int, s: State)
    requires s.i < |input| && OpenersBreak(s.out) && IsCloser(input[s.i])
    requires !(s.i + 1 < |input| && input[s.i + 1] == ',')
    requires StepAt(input, size, s).Next?
    ensures StepAt(input, size, s).next.i == s.i + 1
    ensures OutputStep(input, s, StepAt(input, size, s).next)
  {
    var c := input[s.i];
    var indent := Spaces((s.level - 1) * size).value;
    var brk := Break(s.i + 1 < |input| && input[s.i + 1] != ' ' && input[s.i + 1] != ',');
    var t := StepAt(input, size, s).next;
    assert t.i == s.i + 1 && t.out == s.out + (indent + [c] + brk);
    assert input[s.i..t.i] == [c];
    PieceAfter(s.out, indent, [c], brk);
  }

  /** Appending a piece to what was emitted so far. */
  lemma PieceAfter(out: string, indent: string, body: string, brk: string)
    requires OpenersBreak(out)
    requires forall k :: 0 <= k < |indent| ==> indent[k] == ' '
    requires brk == "" || brk == "\n"
    requires forall k :: 0 <= k < |body| - 1 ==> !IsOpener(body[k])
    requires body != [] && IsOpener(body[|body| - 1]) ==> brk == "\n"
    ensures OpenersBreak(out + (indent + body + brk))
    ensures Keep(out + (indent + body + brk), NotLayout) == Keep(out, NotLayout) + Keep(body, NotLayout)
  {
    Piece(indent, body, brk);
    PieceAppend(out, indent + body + brk);
  }

  /** What one iteration appends: an indent, the consumed characters and
      possibly a line break, which must follow a trailing opener. */
  lemma Piece(indent: string, body: string, brk: string)
    requires forall k :: 0 <= k < |indent| ==> indent[k] == ' '
    requires brk == "" || brk == "\n"
    requires forall k :: 0 <= k < |body| - 1 ==> !IsOpener(body[k])
    requires body != [] && IsOpener(body[|body| - 1]) ==> brk == "\n"
    ensures OpenersBreak(indent + body + brk)
    ensures Keep(indent + body + brk, NotLayout) == Keep(body, NotLayout)
  {
    PieceBreaks(indent, body, brk);
    PieceKeep(indent, body, brk);
  }

  lemma PieceKeep(indent: string, body: string, brk: string)
    requires forall k :: 0 <= k < |indent| ==> indent[k] == ' '
    requires brk == "" || brk == "\n"
    ensures Keep(indent + body + brk, NotLayout) == Keep(body, NotLayout)
  {
    KeepAppend(indent, body, NotLayout);
    KeepAppend(indent + body, brk, NotLayout);
    LayoutFree(indent);
    LayoutFree(brk);
  }

  lemma PieceBreaks(indent: string, body: string, brk: string)
    requires forall k :: 0 <= k < |indent| ==> indent[k] == ' '
    requires brk == "" || brk == "\n"
    requires forall k :: 0 <= k < |body| - 1 ==> !IsOpener(body[k])
    requires body != [] && IsOpener(body[|body| - 1]) ==> brk == "\n"
    ensures OpenersBreak(indent + body + brk)
  {
    var piece := indent + body + brk;
    assert forall k :: 0 <= k < |indent| ==> piece[k] == indent[k];
    assert forall k :: 0 <= k < |body| ==> piece[|indent| + k] == body[k];
    assert forall k :: 0 <= k < |brk| ==> piece[|indent| + |body| + k] == brk[k];
  }


  lemma PieceAppend(out: string, piece: string)
    requires OpenersBreak(out) && OpenersBreak(piece)
    ensures OpenersBreak(out + piece)
    ensures Keep(out + piece, NotLayout) == Keep(out, NotLayout) + Keep(piece, NotLayout)
  {
    OpenersBreakAppend(out, piece);
    KeepAppend(out, piece, NotLayout);
  }

  /** Every opening bracket in `out` is followed by a line break. */
  predicate OpenersBreak(out: string) {
    forall k :: 0 <= k < |out| && IsOpener(out[k]) ==> k + 1 < |out| && out[k + 1] == '\n'
  }

  lemma OpenersBreakAppend(a: string, b: string)
    requires OpenersBreak(a) && OpenersBreak(b)
    ensures OpenersBreak(a + b)
  {
    forall k | 0 <= k < |a + b| && IsOpener((a + b)[k]) ensures k + 1 < |a + b| && (a + b)[k + 1] == '\n' {
      if k >= |a| { assert (a + b)[k] == b[k - |a|]; }
    }
  }

  lemma LayoutFree(s: string)
    requires forall k :: 0 <= k < |s| ==> IsLayout(s[k])
    ensures Keep(s, NotLayout) == []
  {
    KeepNone(s, NotLayout);
  }

  /** `Keep` on a few explicit characters, unfolded. */
  lemma KeepChars(s: string)
    requires |s| <= 3
    ensures Keep(s, NotLayout) == (if s == [] then [] else (if NotLayout(s[0]) then [s[0]] else []) + Keep(s[1..], NotLayout))
    ensures |s| >= 1 ==> Keep(s[1..], NotLayout) == (if |s| == 1 then [] else (if NotLayout(s[1]) then [s[1]] else []) + Keep(s[2..], NotLayout))
    ensures |s| >= 2 ==> Keep(s[2..], NotLayout) == (if |s| == 2 then [] else (if NotLayout(s[2]) then [s[2]] else []))
  {
    if |s| == 3 { assert s[2..][1..] == []; }
  }

  // ---------------------------------------------------------------------
  // The whole run

  /** The input holds no `(` or `)`. */
  predicate ParenFree(s: string) {
    forall m :: 0 <= m < |s| ==> !IsParen(s[m])
  }

  lemma MulSign(a: int, b: int)
    requires b >= 0 && a * b < 0
    ensures a < 0 && b > 0
  {
  }

  lemma {:induction false} RunDepth(input: string, size: int, s: State)
    requires s.i <= |input| && s.level == Depth(input[..s.i])
    ensures match Run(input, size, s)
      case Finished(t) =>
        t.i == |input| && t.level == Depth(input)
        && forall m :: s.i <= m < |input| ==> !IsParen(input[m])
      case Hangs(t) =>
        s.i <= t.i < |input| && IsParen(input[t.i]) && t.level == Depth(input[..t.i])
        && StepAt(input, size, t) == Next(t)
      case Raised(level, count) =>
        count < 0 && count == level * size && (size >= 0 ==> size > 0 && !PrefixBalanced(input))
    decreases |input| - s.i
  {
    if s.i == |input| {
      assert input[..s.i] == input;
    } else {
      StepProgress(input, size, s);
      StepDepth(input, size, s);
      match StepAt(input, size, s)
      case Throw(level, count) =>
        if size >= 0 {
          MulSign(level, size);
          if level == Depth(input[..s.i]) {
            assert !(Depth(input[..s.i]) >= 0);
          } else {
            assert !(Depth(input[..s.i + 1]) >= 0);
          }
        }
      case Next(t) =>
        if t.i != s.i {
          RunDepth(input, size, t);
        }
    }
  }

  lemma {:induction false} UnbalancedRaises(input: string, size: int, s: State, k: nat)
    requires s.i <= |input| && s.level == Depth(input[..s.i]) && s.level >= 0 && size > 0
    requires forall m :: s.i <= m < |input| ==> !IsParen(input[m])
    requires s.i < k <= |input| && Depth(input[..k]) < 0
    ensures Run(input, size, s).Raised?
    decreases |input| - s.i
  {
    StepProgress(input, size, s);
    StepDepth(input, size, s);
    match StepAt(input, size, s)
    case Throw(_, _) =>
    case Next(t) =>
      assert t.i > s.i;
      assert k > t.i;
      UnbalancedRaises(input, size, t, k);
  }

  lemma {:induction false} RunOutput(input: string, size: int, s: State)
    requires s.i <= |input| && OpenersBreak(s.out)
    ensures Run(input, size, s).Finished? ==>
      Run(input, size, s).last.i == |input| && OutputStep(input, s, Run(input, size, s).last)
    decreases |input| - s.i
  {
    if s.i == |input| {
      assert input[s.i..s.i] == [];
    } else {
      var step := StepAt(input, size, s);
      if step.Throw? {
        RunThrow(input, size, s, step.level, step.count);
      } else {
        var t := step.next;
        RunNext(input, size, s, t);
        if t.i != s.i {
          StepOutput(input, size, s);
          RunOutput(input, size, t);
          KeepSplit(input, s.i, t.i, |input|);
        }
      }
    }
  }

  lemma KeepSplit(input: string, i: nat, j: nat, k: nat)
    requires i <= j <= k <= |input|
    ensures Keep(input[i..k], NotLayout) == Keep(input[i..j], NotLayout) + Keep(input[j..k], NotLayout)
  {
    assert input[i..k] == input[i..j] + input[j..k];
    KeepAppend(input[i..j], input[j..k], NotLayout);
  }

  lemma StartState(input: string)
    ensures Depth(input[..0]) == 0 && OpenersBreak([])
  {
    assert input[..0] == [];
  }

  // ---------------------------------------------------------------------
  // What format promises

  /** When the scan completes, the indent level it ends at is the number of
      opening brackets minus the number of closing ones, whatever their kinds. */
  lemma FinalLevelIsDepth(grammar: string, size: int)
    ensures Render(grammar, size).Finished? ==>
      Render(grammar, size).last.level == Depth(Trim(grammar))
  {
    StartState(Trim(grammar));
    RunDepth(Trim(grammar), size, State(0, 0, []));
  }

  /** The scan stalls only at a `(` or `)`, and there the loop body maps the
      state to itself, so `format` never returns. */
  lemma HangsAtParen(grammar: string, size: int)
    ensures Render(grammar, size).Hangs? ==>
      var input, t := Trim(grammar), Render(grammar, size).at;
      t.i < |input| && IsParen(input[t.i]) && StepAt(input, size, t) == Next(t)
  {
    StartState(Trim(grammar));
    RunDepth(Trim(grammar), size, State(0, 0, []));
  }

  /** The scan completes only on input without parentheses, and on such
      input it never stalls. */
  lemma CompletesOnlyWithoutParens(grammar: string, size: int)
    ensures Render(grammar, size).Finished? ==> ParenFree(Trim(grammar))
    ensures ParenFree(Trim(grammar)) ==> !Render(grammar, size).Hangs?
  {
    StartState(Trim(grammar));
    RunDepth(Trim(grammar), size, State(0, 0, []));
  }

  /** With a positive indent size and no parentheses, `' '.repeat` throws
      exactly when some prefix of the trimmed input closes more brackets
      than it opens. */
  lemma RaisesIffUnbalanced(grammar: string, size: int)
    requires size > 0 && ParenFree(Trim(grammar))
    ensures Render(grammar, size).Raised? <==> !PrefixBalanced(Trim(grammar))
  {
    var input := Trim(grammar);
    StartState(input);
    RunDepth(input, size, State(0, 0, []));
    if !PrefixBalanced(input) {
      var k :| 0 <= k <= |input| && Depth(input[..k]) < 0;
      UnbalancedRaises(input, size, State(0, 0, []), k);
    }
  }

  /** Prefix-balanced input never makes `' '.repeat` throw. */
  lemma BalancedNeverRaises(grammar: string, size: int)
    requires size >= 0 && PrefixBalanced(Trim(grammar))
    ensures !Render(grammar, size).Raised?
  {
    StartState(Trim(grammar));
    RunDepth(Trim(grammar), size, State(0, 0, []));
  }

  /** Prefix-balanced input without parentheses is always formatted, and
      the indent level ends at the input's depth. */
  lemma BalancedCompletes(grammar: string, size: int)
    requires size >= 0 && PrefixBalanced(Trim(grammar)) && ParenFree(Trim(grammar))
    ensures Render(grammar, size).Finished?
    ensures Render(grammar, size).last.level == Depth(Trim(grammar))
  {
    BalancedNeverRaises(grammar, size);
    CompletesOnlyWithoutParens(grammar, size);
    FinalLevelIsDepth(grammar, size);
  }

  /** The scan adds and drops spaces and line breaks only: every other
      character of the trimmed input is emitted once, in order. */
  lemma ScanKeepsText(grammar: string, size: int)
    ensures Render(grammar, size).Finished? ==>
      Keep(Render(grammar, size).last.out, NotLayout) == Keep(Trim(grammar), NotLayout)
  {
    StartState(Trim(grammar));
    RunOutput(Trim(grammar), size, State(0, 0, []));
    assert Trim(grammar)[0..|Trim(grammar)|] == Trim(grammar);
  }

  /** The formatted text has the same non-whitespace characters as the
      input, in the same order. */
  lemma FormatKeepsVisible(grammar: string, size: int)
    ensures Render(grammar, size).Finished? ==>
      Visible(CleanupResult(Render(grammar, size).last.out)) == Visible(grammar)
  {
    if Render(grammar, size).Finished? {
      var out := Render(grammar, size).last.out;
      ScanKeepsText(grammar, size);
      assert forall c :: IsVisible(c) ==> NotLayout(c);
      KeepKeep(out, NotLayout, IsVisible);
      KeepKeep(Trim(grammar), NotLayout, IsVisible);
      TrimVisible(grammar);
      CleanupVisible(out);
    }
  }

  /** In the formatted text every opening bracket ends its line. */
  lemma FormatOpenersEndLines(grammar: string, size: int)
    ensures Render(grammar, size).Finished? ==>
      EndsLines(CleanupResult(Render(grammar, size).last.out), IsOpener)
  {
    var input := Trim(grammar);
    var outcome := Run(input, size, State(0, 0, []));
    if outcome.Finished? {
      var out := outcome.last.out;
      StartState(input);
      RunOutput(input, size, State(0, 0, []));
      OpenersEndLines(out);
      OpenersVisible();
      CleanupEndsLines(out, IsOpener);
    }
  }

  lemma OpenersEndLines(out: string)
    requires OpenersBreak(out)
    ensures EndsLines(out, IsOpener)
  {
  }

  lemma OpenersVisible()
    ensures forall c :: IsOpener(c) ==> IsVisible(c)
  {
  }
}
