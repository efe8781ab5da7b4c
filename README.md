# PCG grammar formatter, modelled in Dafny

This project models the `PCGFormatter` class of the PCG Grammar VS Code
extension (`src/extension.ts`). The class pretty-prints a PCG grammar
string in one character-level pass:

- an opening bracket (`<`, `[`, `{`) is emitted after the current indent
  and ends its line, and the indent then deepens. It starts a new line only
  when the text before it ended one. It stays on the previous line after
  `],` or `]` followed by a space, and after a content run followed by a
  space (`A [B]` gives `A[`);
- a closing bracket first reduces the indent. It absorbs a comma that
  directly follows it and then breaks the line under the conditions the
  code spells out;
- a comma becomes `,` plus a line break, and a space is dropped;
- any other character starts a content run that ends at the first of
  `<>[]{}(), `. The run is emitted after the indent, with a line break only
  before `<`, `[`, `{` or `(`;
- `cleanupResult` then splits the text into lines, right-trims each line,
  drops blank lines, rejoins the lines and trims the result.

Files:

- `strings.dfy` (module `Strings`): the JavaScript string operations used,
  over `string`. These are `trim`, `trimRight`, `split('\n')`,
  `join('\n')` and `' '.repeat(n)`, with ECMAScript's whitespace set
  written out. `Keep` and `Visible` filter a string's characters.
- `cleanup.dfy` (module `Cleanup`): `cleanupResult` and what its output
  looks like.
- `scan.dfy` (module `Scan`): the loop of `format` as a pure step function.
  `StepAt` is one iteration. `Run` repeats it until one of three outcomes:
  the input ends (`Finished`), `' '.repeat` throws (`Raised`), or an
  iteration leaves the state unchanged (`Hangs`). The module also holds the
  lemmas about the whole pass.
- `formatter.dfy` (module `Formatter`): the class `PCGFormatter`. Its
  fields are `indentSize` and `indentLevel`. The imperative `Format`
  method updates `indentLevel` in place. Its loop invariant is that
  running `Run` from the current loop variables gives the outcome of the
  whole call.
- `examples.dfy` (module `Examples`): small inputs worked through
  iteration by iteration, and through the class.

The model covers the `PCGFormatter` class (`src/extension.ts`, lines
4-108), as written, and nothing else in the file.

The model also shows an effect of the code as written (`SiblingsScan`).
After `],` a space suppresses the line break, and the space itself is
dropped. So `[A], [B]` renders with `],[` on one line.

## Model

| member | source | states |
|---|---|---|
| Strings.Spaces | src/extension.ts:93 | `' '.repeat(n)` yields a value exactly when `n >= 0`, and then it is `n` spaces |
| Strings.TrimRight | src/extension.ts:100 | `trimRight` removes only trailing whitespace: the result is a prefix that is empty or ends in a visible character. `TrimVisible` shows it keeps every visible character |
| Strings.TrimLeft | src/extension.ts:106 | the leading half of `trim`: the result is a suffix, only whitespace is removed, and it is empty or starts with a visible character |
| Strings.Trim | src/extension.ts:17 | `trim` removes whitespace at both ends: the result is empty or has visible first and last characters. `TrimVisible` and `TrimClean` carry the rest |
| Strings.Split | src/extension.ts:99 | `split('\n')` yields at least one piece and no piece contains `'\n'`. `JoinSplit` and `SplitJoin` make `Join` its inverse |
| Strings.Join | src/extension.ts:105 | `join('\n')` of n lines has at least n-1 characters and is the line itself for one line. `JoinSplit` and `SplitJoin` make `Split` its inverse |
| Strings.TrimVisible | src/extension.ts:17 | `trim` and `trimRight` remove whitespace only: the visible characters are unchanged |
| Strings.TrimClean | src/extension.ts:17 | a string that starts and ends with a visible character is its own trim |
| Strings.JoinSplit | src/extension.ts:99-105 | joining the pieces of `split('\n')` with `'\n'` gives back the string |
| Strings.SplitJoin | src/extension.ts:99-105 | splitting the join of lines without `'\n'` gives back the lines |
| Cleanup.NonBlank | src/extension.ts:101-104 | the blank-line filter never yields more lines than it is given. `NonBlankSingle`, `NonBlankAppend` and `NonBlankMembers` carry the rest |
| Cleanup.NonBlankSingle | src/extension.ts:101-104 | the filter keeps a single line exactly when its trim is non-empty |
| Cleanup.NonBlankAppend | src/extension.ts:101-104 | the filter works line by line: filtering `a + b` is filtering `a` followed by filtering `b`. With `NonBlankSingle`, this fixes the order and the copies of repeated lines |
| Cleanup.NonBlankMembers | src/extension.ts:101-104 | a line is in the result exactly when it is in the input and its trim is non-empty |
| Cleanup.KeptLines | src/extension.ts:98-104 | the lines left after split, right-trim and filter are no more than the pieces and none is blank. `KeptLinesClean` carries the rest |
| Cleanup.CleanupResult | src/extension.ts:96-107 | the cleaned text is empty or starts and ends with a visible character. `CleanupTidy`, `CleanupFixedPoints`, `CleanupIdempotent`, `CleanupVisible` and `CleanupEndsLines` carry the rest |
| Cleanup.KeptLinesClean | src/extension.ts:98-104 | every line that survives split, right-trim and filter is non-empty, free of `'\n'` and ends in a visible character |
| Cleanup.NonBlankOfClean | src/extension.ts:101-104 | the filter keeps a list of clean lines unchanged |
| Cleanup.CleanupTidy | src/extension.ts:96-107 | the cleaned text has no leading or trailing whitespace, and no empty or blank line or line ending in whitespace |
| Cleanup.CleanupFixedPoints | src/extension.ts:96-107 | cleanup leaves a text unchanged exactly when that text is tidy |
| Cleanup.CleanupIdempotent | src/extension.ts:96-107 | cleaning cleaned text changes nothing |
| Cleanup.CleanupVisible | src/extension.ts:96-107 | cleanup keeps every visible character, in order |
| Cleanup.CleanupEndsLines | src/extension.ts:96-107 | for any class of visible characters: if every character of that class ends its line before cleanup, every one still does after it |
| Scan.ContentEnd | src/extension.ts:66-69 | the content run stops at the first delimiter of `'<>[]{}(), '` or at the end of the input |
| Scan.StepAt | src/extension.ts:22-86 | one iteration of the loop body: the next index never moves backward or past the end. `StepProgress`, `StepDepth` and `StepOutput` carry the rest |
| Scan.Run | src/extension.ts:21-87 | the `while` loop from a state: a completed pass stops at the end of the input, and a stall is at an index where the iteration maps the state to itself |
| Scan.Render | src/extension.ts:15-21 | the pass of `format` over the trimmed input from level 0 with nothing emitted. The same two facts as `Run`, stated about the trimmed input |
| Scan.StepProgress | src/extension.ts:63-86 | an iteration maps the state to itself on `(` or `)`; otherwise it moves `i` forward; it never passes a parenthesis |
| Scan.RunNext | src/extension.ts:21-87 | a one-step unfolding of `Run`: an iteration that moves `i` leads to the same outcome. One that does not leaves the whole state unchanged, so the loop would repeat it forever |
| Scan.StepDepth | src/extension.ts:24-52 | after every iteration the indent level is openers minus closers consumed. A throw happens only at a negative count, at such a level |
| Scan.StepOutput | src/extension.ts:24-85 | an iteration appends exactly the consumed non-layout characters (spaces and line breaks aside), and every opener it emits is followed by a line break |
| Scan.CloserCommaOutput | src/extension.ts:40-48 | a closer followed by a comma consumes both characters in one iteration and emits each once |
| Scan.FinalLevelIsDepth | src/extension.ts:15-38 | a completed pass leaves the indent level at openers minus closers of the trimmed input, whatever the bracket kinds |
| Scan.HangsAtParen | src/extension.ts:63-86 | the pass stalls only at a `(` or `)`, where the iteration changes nothing |
| Scan.CompletesOnlyWithoutParens | src/extension.ts:63-86 | the pass completes only on input without parentheses, and on such input it never stalls |
| Scan.RaisesIffUnbalanced | src/extension.ts:33-38 | with a positive indent size and no parentheses, `' '.repeat` throws exactly when some prefix closes more brackets than it opens |
| Scan.BalancedNeverRaises | src/extension.ts:37-38 | with a non-negative indent size, prefix-balanced input never makes `' '.repeat` throw |
| Scan.BalancedCompletes | src/extension.ts:13-90 | prefix-balanced input without parentheses always completes, with the level at the input's depth |
| Scan.ScanKeepsText | src/extension.ts:21-87 | the scan adds or removes only spaces and line breaks: all other characters of the trimmed input are emitted once, in order |
| Scan.FormatKeepsVisible | src/extension.ts:13-107 | the formatted text has exactly the visible characters of the input, in order |
| Scan.FormatOpenersEndLines | src/extension.ts:13-107 | in the formatted text every opening bracket is the last character of its line |
| Formatter.ScanContent | src/extension.ts:65-70 | the inner loop collects the characters from `start` up to the first delimiter and stops on that delimiter |
| Formatter.RenderedTidy | src/extension.ts:89 | a completed pass, once cleaned, is tidy, keeps the input's visible characters and ends a line after every opener |
| Formatter.PCGFormatter.constructor | src/extension.ts:8-11 | the indent size defaults to 2 and the level starts at 0 |
| Formatter.PCGFormatter.GetIndent | src/extension.ts:92-94 | `indentLevel * indentSize` spaces, or no value when that count is negative |
| Formatter.PCGFormatter.Format | src/extension.ts:13-90 | resets the level, then the result and final level are those of the pass over the trimmed input: cleaned text, a RangeError, or no progress. Any text it returns is tidy, keeps the input's visible characters and ends a line after every opener |
| Formatter.PCGFormatter.Advance | src/extension.ts:22-86 | one pass of the loop body updates `indentLevel` and returns exactly the step of the pure model |
| Examples.BracketScan | src/extension.ts:72-82 | `[A]` is scanned to `[` then `  A]` on the next line: no break between content and a closer |
| Examples.BracketCleanup | src/extension.ts:96-107 | that text is already tidy and comes out of cleanup unchanged |
| Examples.RecordScan | src/extension.ts:54-61 | in `{A:1, B:2}` each comma ends its line and the following space is dropped |
| Examples.SiblingsScan | src/extension.ts:41-48 | ` [A], [B] ` is trimmed, and `],` followed by a space gets no line break, giving `],[` |
| Examples.StrayCloserRaises | src/extension.ts:37-38 | an unmatched `]` drops the level to -1 and `' '.repeat(-2)` throws |
| Examples.ParenHangs | src/extension.ts:63-70 | on `(A)` the content run is empty and the first iteration changes nothing |
| Examples.FormatBracket | src/extension.ts:13-90 | formatting `[A]` with the default indent returns `[`, a line break, then `  A]` |
| Examples.FormatStrayCloser | src/extension.ts:37-38 | formatting `]` fails with a RangeError for the count -2 |
| Examples.FormatParen | src/extension.ts:63-86 | formatting `(A)` fails with no progress at index 0 |

## Left out

- `activate` and `deactivate`, which cover command registration, editor selections and edits, the status bar, timers and messages. They are I/O over the VS Code API, which is not part of this model.
- Formatter.PCGFormatter.Format: where JavaScript throws a RangeError, the method returns `Err(RangeError(count))` instead of raising an exception.
- Formatter.PCGFormatter.Format: on `(` or `)` the JavaScript loop repeats the same iteration forever. The method returns `Err(NoProgress(i))` at the first iteration that changes nothing. `Scan.RunNext` and `Scan.HangsAtParen` prove that this iteration would repeat unchanged.
- Formatter.PCGFormatter.Advance: the body of `format`'s loop is a separate method, and the content run's inner loop is `ScanContent`. The `i--` followed by the loop's `i++` is modelled as their net effect: `i` ends on the delimiter.
- Strings: JavaScript strings are sequences of UTF-16 code units, while Dafny `char` is a Unicode scalar value. Surrogate pairs are therefore not modelled.
- Strings: the maximum string length of JavaScript engines, where `repeat` also throws a RangeError, is not modelled. Strings are unbounded.
- Formatter.PCGFormatter.constructor: `indentSize` is a JavaScript number. The model takes an integer, so fractional, NaN and infinite sizes are not modelled.
