/**
 * The JavaScript string operations the formatter relies on, as Dafny
 * functions over `string` (= `seq<char>`): `trim`, `trimRight`,
 * `split('\n')`, `join('\n')` and `' '.repeat(n)`, plus `Keep`, a filter
 * used to state which characters an operation may add or remove.
 */
module Strings {

  datatype Option<+T> = None | Some(value: T)

  /** The characters `trim` and `trimRight` remove: ECMAScript's WhiteSpace
      and LineTerminator code points. */
  predicate IsWhitespace(c: char) {
    c == ' ' || c == '\t' || c == '\n' || c == '\r' || c == '\U{000B}' || c == '\U{000C}'
    || c == '\U{00A0}' || c == '\U{1680}' || ('\U{2000}' <= c <= '\U{200A}')
    || c == '\U{2028}' || c == '\U{2029}' || c == '\U{202F}' || c == '\U{205F}'
    || c == '\U{3000}' || c == '\U{FEFF}'
  }

  predicate IsVisible(c: char) {
    !IsWhitespace(c)
  }

  /** `' '.repeat(n)`: n spaces, or None where JavaScript throws a
      RangeError because the count is negative. */
  function Spaces(n: int): (r: Option<string>)
    ensures r.Some? <==> n >= 0
    ensures r.Some? ==> |r.value| == n && forall k :: 0 <= k < |r.value| ==> r.value[k] == ' '
  {
    if n < 0 then None else Some(seq(n, _ => ' '))
  }

  /** `s.trimRight()` */
  function TrimRight(s: string): (r: string)
    ensures |r| <= |s| && r == s[..|r|]
    ensures forall k :: |r| <= k < |s| ==> IsWhitespace(s[k])
    ensures r == [] || IsVisible(r[|r| - 1])
    decreases |s|
  {
    if s != [] && IsWhitespace(s[|s| - 1]) then TrimRight(s[..|s| - 1]) else s
  }

  /** The leading half of `trim`. */
  function TrimLeft(s: string): (r: string)
    ensures |r| <= |s| && r == s[|s| - |r|..]
    ensures forall k :: 0 <= k < |s| - |r| ==> IsWhitespace(s[k])
    ensures r == [] || IsVisible(r[0])
    decreases |s|
  {
    if s != [] && IsWhitespace(s[0]) then TrimLeft(s[1..]) else s
  }

  /** `s.trim()` */
  function Trim(s: string): (r: string)
    ensures |r| <= |s|
    ensures r == [] || (IsVisible(r[0]) && IsVisible(r[|r| - 1]))
  {
    TrimLeft(TrimRight(s))
  }

  /** `s.split('\n')`: always at least one piece, none containing '\n'. */
  function Split(s: string): (lines: seq<string>)
    ensures |lines| >= 1
    ensures forall n :: 0 <= n < |lines| ==> '\n' !in lines[n]
  {
    if s == [] then [[]]
    else
      var rest := Split(s[1..]);
      if s[0] == '\n' then [[]] + rest
      else [[s[0]] + rest[0]] + rest[1..]
  }

  /** `lines.join('\n')` */
  function Join(lines: seq<string>): (r: string)
    ensures |r| >= |lines| - 1
    ensures |lines| == 1 ==> r == lines[0]
  {
    if |lines| == 0 then []
    else if |lines| == 1 then lines[0]
    else lines[0] + "\n" + Join(lines[1..])
  }

  /** The characters of `s` that satisfy `p`, in order. */
  function Keep(s: string, p: char -> bool): (r: string)
    ensures |r| <= |s|
    ensures forall k :: 0 <= k < |r| ==> p(r[k])
  {
    if s == [] then [] else (if p(s[0]) then [s[0]] else []) + Keep(s[1..], p)
  }

  /** The non-whitespace characters of `s`, in order. */
  function Visible(s: string): string {
    Keep(s, IsVisible)
  }

  // ---------------------------------------------------------------------
  // Split and Join are inverse to each other

  lemma {:induction false} JoinSplit(s: string)
    ensures Join(Split(s)) == s
  {
    if s != [] {
      var rest := Split(s[1..]);
      JoinSplit(s[1..]);
      if s[0] == '\n' {
        assert ([[]] + rest)[1..] == rest;
        assert s == "\n" + s[1..];
      } else {
        var lines := [[s[0]] + rest[0]] + rest[1..];
        assert lines[1..] == rest[1..];
        assert s == [s[0]] + s[1..];
      }
    }
  }

  lemma {:induction false} SplitSingle(a: string)
    requires '\n' !in a
    ensures Split(a) == [a]
  {
    if a != [] {
      assert '\n' !in a[1..] by {
        forall k | 0 <= k < |a| - 1 ensures a[1..][k] != '\n' { assert a[1..][k] == a[k + 1]; }
      }
      SplitSingle(a[1..]);
      assert [a[0]] + a[1..] == a;
    }
  }

  lemma {:induction false} SplitLine(a: string, b: string)
    requires '\n' !in a
    ensures Split(a + "\n" + b) == [a] + Split(b)
  {
    if a == [] {
      assert (a + "\n" + b)[1..] == b;
    } else {
      assert '\n' !in a[1..] by {
        forall k | 0 <= k < |a| - 1 ensures a[1..][k] != '\n' { assert a[1..][k] == a[k + 1]; }
      }
      SplitLine(a[1..], b);
      assert (a + "\n" + b)[1..] == a[1..] + "\n" + b;
      assert [a[0]] + a[1..] == a;
    }
  }

  lemma {:induction false} SplitJoin(lines: seq<string>)
    requires |lines| >= 1
    requires forall n :: 0 <= n < |lines| ==> '\n' !in lines[n]
    ensures Split(Join(lines)) == lines
  {
    if |lines| == 1 {
      SplitSingle(lines[0]);
    } else {
      SplitJoin(lines[1..]);
      SplitLine(lines[0], Join(lines[1..]));
      assert [lines[0]] + lines[1..] == lines;
    }
  }

  // ---------------------------------------------------------------------
  // Keep

  lemma {:induction false} KeepAppend(a: string, b: string, p: char -> bool)
    ensures Keep(a + b, p) == Keep(a, p) + Keep(b, p)
  {
    if a == [] {
      assert a + b == b;
    } else {
      assert (a + b)[0] == a[0];
      assert (a + b)[1..] == a[1..] + b;
      KeepAppend(a[1..], b, p);
    }
  }

  lemma {:induction false} KeepNone(s: string, p: char -> bool)
    requires forall k :: 0 <= k < |s| ==> !p(s[k])
    ensures Keep(s, p) == []
  {
    if s != [] {
      KeepNone(s[1..], p);
    }
  }

  lemma {:induction false} KeepKeep(s: string, p: char -> bool, q: char -> bool)
    requires forall c :: q(c) ==> p(c)
    ensures Keep(Keep(s, p), q) == Keep(s, q)
  {
    if s != [] {
      KeepKeep(s[1..], p, q);
      var head := if p(s[0]) then [s[0]] else [];
      KeepAppend(head, Keep(s[1..], p), q);
      if p(s[0]) {
        assert Keep(head, q) == (if q(s[0]) then [s[0]] else []) + Keep([], q);
      }
    }
  }

  /** Trimming removes whitespace only. */
  lemma TrimVisible(s: string)
    ensures Visible(TrimRight(s)) == Visible(s)
    ensures Visible(TrimLeft(s)) == Visible(s)
    ensures Visible(Trim(s)) == Visible(s)
  {
    TrimRightVisible(s);
    TrimLeftVisible(s);
    TrimLeftVisible(TrimRight(s));
  }

  lemma TrimRightVisible(s: string)
    ensures Visible(TrimRight(s)) == Visible(s)
  {
    var r := TrimRight(s);
    assert s == r + s[|r|..];
    KeepAppend(r, s[|r|..], IsVisible);
    KeepNone(s[|r|..], IsVisible);
  }

  lemma TrimLeftVisible(s: string)
    ensures Visible(TrimLeft(s)) == Visible(s)
  {
    var r := TrimLeft(s);
    assert s == s[..|s| - |r|] + r;
    KeepAppend(s[..|s| - |r|], r, IsVisible);
    KeepNone(s[..|s| - |r|], IsVisible);
  }

  /** A string that starts and ends with visible characters is its own
      trim. */
  lemma TrimClean(s: string)
    requires s != [] && IsVisible(s[0]) && IsVisible(s[|s| - 1])
    ensures TrimRight(s) == s && TrimLeft(s) == s && Trim(s) == s
  {
  }

  /** Removing leading whitespace from a string that has a visible
      character only touches that string's own prefix. */
  lemma {:induction false} TrimLeftAppend(a: string, b: string)
    requires a != [] && IsVisible(a[|a| - 1])
    ensures TrimLeft(a + b) == TrimLeft(a) + b
  {
    assert (a + b)[0] == a[0];
    if IsWhitespace(a[0]) {
      assert (a + b)[1..] == a[1..] + b;
      TrimLeftAppend(a[1..], b);
    }
  }
}
