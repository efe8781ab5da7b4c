/**
 * PCGFormatter.cleanupResult: split the rendered text into lines,
 * right-trim every line, drop the blank ones, rejoin and trim the whole.
 */
module Cleanup {
  import opened Strings

  /** `.filter(line => line.trim() !== '')`: keeps exactly the lines of its
      input that are not blank. */
  function NonBlank(lines: seq<string>): (r: seq<string>)
    ensures |r| <= |lines|
  {
    if lines == [] then []
    else (if Trim(lines[0]) != [] then [lines[0]] else []) + NonBlank(lines[1..])
  }

  /** The filter on one line keeps it exactly when it is not blank. */
  lemma NonBlankSingle(line: string)
    ensures NonBlank([line]) == if Trim(line) != [] then [line] else []
  {
    assert [line][1..] == [];
  }

  /** The filter works line by line: it keeps the order of the lines and
      every copy of a repeated line. */
  lemma {:induction false} NonBlankAppend(a: seq<string>, b: seq<string>)
    ensures NonBlank(a + b) == NonBlank(a) + NonBlank(b)
  {
    if a == [] {
      assert a + b == b;
    } else {
      var head := if Trim(a[0]) != [] then [a[0]] else [];
      ConsAppend(a, b);
      NonBlankAppend(a[1..], b);
      Associative(head, NonBlank(a[1..]), NonBlank(b));
    }
  }

  lemma Associative<T>(x: seq<T>, y: seq<T>, z: seq<T>)
    ensures (x + y) + z == x + (y + z)
  {
  }

  /** The filter keeps exactly the lines that are not blank. */
  lemma {:induction false} NonBlankMembers(lines: seq<string>)
    ensures forall line :: line in NonBlank(lines) <==> line in lines && Trim(line) != []
  {
    if lines != [] {
      var l, rest := lines[0], lines[1..];
      ConsAppend(lines, []);
      NonBlankCons(l, rest);
      NonBlankSingle(l);
      NonBlankMembers(rest);
    }
  }

  lemma ConsAppend<T>(a: seq<T>, b: seq<T>)
    requires a != []
    ensures a == [a[0]] + a[1..] && (a + b)[0] == a[0] && (a + b)[1..] == a[1..] + b
  {
  }

  lemma NonBlankCons(l: string, rest: seq<string>)
    ensures NonBlank([l] + rest) == NonBlank([l]) + NonBlank(rest)
  {
    assert ([l] + rest)[0] == l && ([l] + rest)[1..] == rest;
    NonBlankSingle(l);
  }

  /** The lines that survive `split('\n').map(trimRight).filter(...)`. */
  function KeptLines(result: string): (r: seq<string>)
    ensures |r| <= |Split(result)|
    ensures forall n :: 0 <= n < |r| ==> Trim(r[n]) != []
  {
    var lines := Split(result);
    var trimmed := seq(|lines|, n requires 0 <= n < |lines| => TrimRight(lines[n]));
    var kept := NonBlank(trimmed);
    NonBlankMembers(trimmed);
    assert forall n :: 0 <= n < |kept| ==> kept[n] in kept;
    kept
  }

  /** `cleanupResult(result)`: the kept lines, rejoined and trimmed. */
  function CleanupResult(result: string): (r: string)
    ensures r == [] || (IsVisible(r[0]) && IsVisible(r[|r| - 1]))
  {
    Trim(Join(KeptLines(result)))
  }

  /** A line that is neither empty nor blank and does not end in whitespace. */
  predicate CleanLine(line: string) {
    line != [] && '\n' !in line && IsVisible(line[|line| - 1])
  }

  predicate CleanLines(lines: seq<string>) {
    forall n :: 0 <= n < |lines| ==> CleanLine(lines[n])
  }

  /** Clean lines, the first of which also starts with a visible character. */
  predicate HeadClean(lines: seq<string>) {
    CleanLines(lines) && (lines != [] ==> IsVisible(lines[0][0]))
  }

  /** What cleanup promises of its output: no leading or trailing
      whitespace, and every line (piece of `split('\n')`) non-empty, not
      blank and not ending in whitespace. */
  predicate Tidy(text: string) {
    text == [] || (IsVisible(text[0]) && IsVisible(text[|text| - 1]) && CleanLines(Split(text)))
  }

  /** Characters of class `p` are each the last of their line. */
  predicate EndsLines(s: string, p: char -> bool) {
    forall k :: 0 <= k < |s| && p(s[k]) ==> k + 1 == |s| || s[k + 1] == '\n'
  }

  /** Characters of class `p` occur in `line` at most as its last character. */
  predicate LastOnly(line: string, p: char -> bool) {
    forall k :: 0 <= k < |line| - 1 ==> !p(line[k])
  }

  // ---------------------------------------------------------------------
  // Shape of the output

  lemma KeptLinesClean(result: string)
    ensures CleanLines(KeptLines(result))
  {
    var lines := Split(result);
    var trimmed := seq(|lines|, n requires 0 <= n < |lines| => TrimRight(lines[n]));
    var kept := NonBlank(trimmed);
    NonBlankMembers(trimmed);
    forall n | 0 <= n < |kept| ensures CleanLine(kept[n]) {
      assert kept[n] in kept;
      var m :| 0 <= m < |trimmed| && trimmed[m] == kept[n];
      assert |Trim(kept[n])| <= |kept[n]|;
      TrimmedLineClean(lines[m]);
    }
  }

  /** A piece of `split('\n')` that is not blank is clean once right-trimmed. */
  lemma TrimmedLineClean(line: string)
    requires '\n' !in line && TrimRight(line) != []
    ensures CleanLine(TrimRight(line))
  {
    var r := TrimRight(line);
    forall k | 0 <= k < |r| ensures r[k] != '\n' {
      assert r[k] == line[k];
    }
  }

  lemma {:induction false} JoinEnds(lines: seq<string>)
    requires lines != [] && CleanLines(lines)
    ensures Join(lines) != []
    ensures Join(lines)[0] == lines[0][0]
    ensures Join(lines)[|Join(lines)| - 1] == lines[|lines| - 1][|lines[|lines| - 1]| - 1]
  {
    if |lines| > 1 {
      var tail := lines[1..];
      JoinEnds(tail);
      var rest := Join(tail);
      var joined := Join(lines);
      assert joined == lines[0] + "\n" + rest;
      assert lines[0] != [] by { assert CleanLine(lines[0]); }
      assert joined[0] == lines[0][0];
      assert joined[|joined| - 1] == rest[|rest| - 1];
      assert tail[|tail| - 1] == lines[|lines| - 1];
    }
  }

  lemma TidyJoin(lines: seq<string>)
    requires HeadClean(lines)
    ensures Tidy(Join(lines))
  {
    if lines != [] {
      JoinEnds(lines);
      SplitJoin(lines);
    }
  }

  lemma {:induction false} NonBlankOfClean(lines: seq<string>)
    requires CleanLines(lines)
    ensures NonBlank(lines) == lines
  {
    if lines != [] {
      var l, rest := lines[0], lines[1..];
      CleanNotBlank(l);
      CleanLinesTail(lines);
      NonBlankOfClean(rest);
      ConsAppend(lines, []);
      NonBlankCons(l, rest);
      NonBlankSingle(l);
    }
  }

  lemma CleanNotBlank(line: string)
    requires CleanLine(line)
    ensures Trim(line) != []
  {
    VisibleLineNotBlank(line);
  }

  lemma CleanLinesTail(lines: seq<string>)
    requires lines != [] && CleanLines(lines)
    ensures CleanLines(lines[1..])
  {
    forall n | 0 <= n < |lines| - 1 ensures CleanLine(lines[1..][n]) { assert lines[1..][n] == lines[n + 1]; }
  }

  /** A clean line is not blank, and left-trimming keeps it clean. */
  lemma VisibleLineNotBlank(line: string)
    requires CleanLine(line)
    ensures Trim(line) != []
    ensures TrimLeft(line) == Trim(line)
    ensures CleanLine(TrimLeft(line)) && IsVisible(TrimLeft(line)[0])
  {
    var t := TrimLeft(line);
    assert TrimRight(line) == line;
    assert t != [] by {
      assert |line| - |t| < |line|;
    }
    assert t[|t| - 1] == line[|line| - 1];
    assert '\n' !in t by {
      forall k | 0 <= k < |t| ensures t[k] != '\n' { assert t[k] == line[|line| - |t| + k]; }
    }
  }

  /** Trimming the joined clean lines only strips the first line's indent. */
  lemma TrimJoin(lines: seq<string>)
    requires lines != [] && CleanLines(lines)
    ensures var head := [TrimLeft(lines[0])] + lines[1..];
      HeadClean(head) && Trim(Join(lines)) == Join(head)
  {
    TrimmedHeadClean(lines);
    JoinEnds(lines);
    var joined := Join(lines);
    var t := TrimLeft(lines[0]);
    assert TrimRight(joined) == joined;
    assert Trim(joined) == TrimLeft(joined);
    if |lines| > 1 {
      var rest := "\n" + Join(lines[1..]);
      JoinCons(lines[0], lines[1..]);
      assert [lines[0]] + lines[1..] == lines;
      assert joined == lines[0] + rest;
      TrimLeftAppend(lines[0], rest);
      JoinCons(t, lines[1..]);
    } else {
      assert [t] + lines[1..] == [t];
    }
  }

  lemma JoinCons(line: string, lines: seq<string>)
    requires lines != []
    ensures Join([line] + lines) == line + ("\n" + Join(lines))
  {
    assert ([line] + lines)[1..] == lines;
  }

  lemma TrimmedHeadClean(lines: seq<string>)
    requires lines != [] && CleanLines(lines)
    ensures HeadClean([TrimLeft(lines[0])] + lines[1..])
  {
    VisibleLineNotBlank(lines[0]);
    CleanLinesTail(lines);
    CleanCons(TrimLeft(lines[0]), lines[1..]);
  }

  lemma CleanCons(line: string, lines: seq<string>)
    requires CleanLine(line) && CleanLines(lines)
    ensures CleanLines([line] + lines)
  {
    forall n | 1 <= n < |lines| + 1 ensures CleanLine(([line] + lines)[n]) {
      assert ([line] + lines)[n] == lines[n - 1];
    }
  }

  /** Cleanup always produces tidy text. */
  lemma CleanupTidy(result: string)
    ensures Tidy(CleanupResult(result))
  {
    var kept := KeptLines(result);
    KeptLinesClean(result);
    if kept != [] {
      TrimJoin(kept);
      TidyJoin([TrimLeft(kept[0])] + kept[1..]);
    }
  }

  /** Tidy text is left as it is. */
  lemma CleanupOfTidy(text: string)
    requires Tidy(text)
    ensures CleanupResult(text) == text
  {
    var lines := Split(text);
    var trimmed := seq(|lines|, n requires 0 <= n < |lines| => TrimRight(lines[n]));
    if text == [] {
      assert lines == [[]];
      assert trimmed == [[]];
      assert NonBlank(trimmed) == [];
    } else {
      assert trimmed == lines;
      NonBlankOfClean(lines);
      JoinSplit(text);
      assert TrimRight(text) == text;
      assert TrimLeft(text) == text;
    }
  }

  /** The texts cleanup leaves unchanged are exactly the tidy ones. */
  lemma CleanupFixedPoints(text: string)
    ensures CleanupResult(text) == text <==> Tidy(text)
  {
    if Tidy(text) {
      CleanupOfTidy(text);
    } else {
      CleanupTidy(text);
    }
  }

  /** Cleaning up twice is cleaning up once. */
  lemma CleanupIdempotent(result: string)
    ensures CleanupResult(CleanupResult(result)) == CleanupResult(result)
  {
    CleanupTidy(result);
    CleanupOfTidy(CleanupResult(result));
  }

  // ---------------------------------------------------------------------
  // Cleanup only removes whitespace

  function VisibleLines(lines: seq<string>): string {
    if lines == [] then [] else Visible(lines[0]) + VisibleLines(lines[1..])
  }

  lemma {:induction false} VisibleJoin(lines: seq<string>)
    ensures Visible(Join(lines)) == VisibleLines(lines)
  {
    if |lines| == 1 {
      assert VisibleLines(lines[1..]) == [];
    } else if |lines| > 1 {
      VisibleJoin(lines[1..]);
      KeepAppend(lines[0] + "\n", Join(lines[1..]), IsVisible);
      KeepAppend(lines[0], "\n", IsVisible);
      assert Keep("\n", IsVisible) == [] + Keep([], IsVisible);
    }
  }

  lemma {:induction false} VisibleLinesPointwise(a: seq<string>, b: seq<string>)
    requires |a| == |b|
    requires forall n :: 0 <= n < |a| ==> Visible(a[n]) == Visible(b[n])
    ensures VisibleLines(a) == VisibleLines(b)
  {
    if a != [] {
      VisibleLinesPointwise(a[1..], b[1..]);
    }
  }

  lemma {:induction false} VisibleNonBlank(lines: seq<string>)
    ensures VisibleLines(NonBlank(lines)) == VisibleLines(lines)
  {
    if lines != [] {
      var l := lines[0];
      VisibleNonBlank(lines[1..]);
      var head := if Trim(l) != [] then [l] else [];
      VisibleLinesAppend(head, NonBlank(lines[1..]));
      TrimVisible(l);
      if Trim(l) == [] {
        assert Visible(l) == Visible([]);
      } else {
        assert VisibleLines(head) == Visible(l) + VisibleLines([]);
      }
    }
  }

  lemma {:induction false} VisibleLinesAppend(a: seq<string>, b: seq<string>)
    ensures VisibleLines(a + b) == VisibleLines(a) + VisibleLines(b)
  {
    if a == [] {
      assert a + b == b;
    } else {
      assert (a + b)[1..] == a[1..] + b;
      VisibleLinesAppend(a[1..], b);
    }
  }

  /** The visible characters of the cleaned-up text are those of the input,
      in the same order. */
  lemma CleanupVisible(result: string)
    ensures Visible(CleanupResult(result)) == Visible(result)
  {
    var lines := Split(result);
    var trimmed := seq(|lines|, n requires 0 <= n < |lines| => TrimRight(lines[n]));
    var kept := NonBlank(trimmed);
    TrimVisible(Join(kept));
    VisibleJoin(kept);
    VisibleNonBlank(trimmed);
    forall n | 0 <= n < |lines| ensures Visible(trimmed[n]) == Visible(lines[n]) {
      TrimVisible(lines[n]);
    }
    VisibleLinesPointwise(trimmed, lines);
    VisibleJoin(lines);
    JoinSplit(result);
  }

  // ---------------------------------------------------------------------
  // Characters that end their line still do after cleanup

  lemma {:induction false} SplitLastOnly(s: string, p: char -> bool)
    requires EndsLines(s, p)
    ensures forall n :: 0 <= n < |Split(s)| ==> LastOnly(Split(s)[n], p)
  {
    if s != [] {
      var tail := s[1..];
      assert EndsLines(tail, p) by {
        forall k | 0 <= k < |tail| && p(tail[k]) ensures k + 1 == |tail| || tail[k + 1] == '\n' {
          assert tail[k] == s[k + 1];
        }
      }
      SplitLastOnly(tail, p);
      var rest := Split(tail);
      if s[0] != '\n' {
        var first := [s[0]] + rest[0];
        if p(s[0]) {
          if |s| == 1 {
            assert rest == [[]];
          } else {
            assert s[1] == '\n';
            assert rest[0] == [];
          }
          assert first == [s[0]];
        }
        assert LastOnly(first, p) by {
          forall k | 0 <= k < |first| - 1 ensures !p(first[k]) {
            if k > 0 { assert first[k] == rest[0][k - 1]; }
          }
        }
        var lines := [first] + rest[1..];
        forall n | 0 <= n < |lines| ensures LastOnly(lines[n], p) {
          if n > 0 { assert lines[n] == rest[n]; }
        }
      }
    }
  }

  lemma {:induction false} JoinEndsLines(lines: seq<string>, p: char -> bool)
    requires !p('\n')
    requires forall n :: 0 <= n < |lines| ==> LastOnly(lines[n], p)
    ensures EndsLines(Join(lines), p)
  {
    if |lines| > 1 {
      JoinEndsLines(lines[1..], p);
      var a := lines[0];
      var b := Join(lines[1..]);
      var s := a + "\n" + b;
      forall k | 0 <= k < |s| && p(s[k]) ensures k + 1 == |s| || s[k + 1] == '\n' {
        if k > |a| {
          assert s[k] == b[k - |a| - 1];
          if k + 1 < |s| { assert s[k + 1] == b[k - |a|]; }
        }
      }
    }
  }

  lemma TrimEndsLines(s: string, p: char -> bool)
    requires EndsLines(s, p)
    ensures EndsLines(Trim(s), p)
  {
    var r := TrimRight(s);
    forall k | 0 <= k < |r| && p(r[k]) ensures k + 1 == |r| || r[k + 1] == '\n' {
      assert r[k] == s[k];
      if k + 1 < |r| { assert r[k + 1] == s[k + 1]; }
    }
    var t := TrimLeft(r);
    forall k | 0 <= k < |t| && p(t[k]) ensures k + 1 == |t| || t[k + 1] == '\n' {
      assert t[k] == r[|r| - |t| + k];
    }
  }

  lemma KeptLinesLastOnly(result: string, p: char -> bool)
    requires forall n :: 0 <= n < |Split(result)| ==> LastOnly(Split(result)[n], p)
    ensures forall n :: 0 <= n < |KeptLines(result)| ==> LastOnly(KeptLines(result)[n], p)
  {
    var lines := Split(result);
    var trimmed := seq(|lines|, n requires 0 <= n < |lines| => TrimRight(lines[n]));
    forall m | 0 <= m < |trimmed| ensures LastOnly(trimmed[m], p) {
      TrimRightLastOnly(lines[m], p);
    }
    var kept := NonBlank(trimmed);
    NonBlankMembers(trimmed);
    forall n | 0 <= n < |kept| ensures LastOnly(kept[n], p) {
      assert kept[n] in kept;
      var m :| 0 <= m < |trimmed| && trimmed[m] == kept[n];
    }
  }

  lemma TrimRightLastOnly(line: string, p: char -> bool)
    requires LastOnly(line, p)
    ensures LastOnly(TrimRight(line), p)
  {
    var r := TrimRight(line);
    forall k | 0 <= k < |r| - 1 ensures !p(r[k]) { assert r[k] == line[k]; }
  }

  /** If every character of class `p` (which holds of no whitespace) ends
      its line before cleanup, it still does afterwards. */
  lemma CleanupEndsLines(result: string, p: char -> bool)
    requires forall c :: p(c) ==> IsVisible(c)
    requires EndsLines(result, p)
    ensures EndsLines(CleanupResult(result), p)
  {
    SplitLastOnly(result, p);
    KeptLinesLastOnly(result, p);
    assert !IsVisible('\n');
    JoinEndsLines(KeptLines(result), p);
    TrimEndsLines(Join(KeptLines(result)), p);
  }
}
