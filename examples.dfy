/**
 * Worked inputs: what the scan emits for a few small grammars and what
 * `format` returns for them, including the two ways it fails. Each
 * example lists its loop iterations in one lemma and chains them into a
 * run in another.
 */
module Examples {
  import opened Strings
  import opened Cleanup
  import opened Scan
  import opened Formatter

  lemma TwoSpaces()
    ensures Spaces(2) == Some("  ")
  {
    assert Spaces(2).value == "  ";
  }

  // ---------------------------------------------------------------------
  // "[A]"

  lemma BracketSteps()
    ensures StepAt("[A]", 2, State(0, 0, [])) == Next(State(1, 1, "[\n"))
    ensures StepAt("[A]", 2, State(1, 1, "[\n")) == Next(State(2, 1, "[\n  A"))
    ensures StepAt("[A]", 2, State(2, 1, "[\n  A")) == Next(State(3, 0, "[\n  A]"))
  {
    TwoSpaces();
    assert ContentEnd("[A]", 1) == 2;
  }

  /** A bracket around one item: the item goes on its own indented line. */
  lemma BracketScan()
    ensures Render("[A]", 2) == Finished(State(3, 0, "[\n  A]"))
  {
    TrimClean("[A]");
    BracketSteps();
    RunNext("[A]", 2, State(0, 0, []), State(1, 1, "[\n"));
    RunNext("[A]", 2, State(1, 1, "[\n"), State(2, 1, "[\n  A"));
    RunNext("[A]", 2, State(2, 1, "[\n  A"), State(3, 0, "[\n  A]"));
  }

  lemma BracketLines()
    ensures Split("[\n  A]") == ["[", "  A]"]
  {
    var lines := ["[", "  A]"];
    assert Join(lines) == "[\n  A]" by {
      assert lines[1..] == ["  A]"];
    }
    SplitJoin(lines);
  }

  lemma BracketTidy()
    ensures Tidy("[\n  A]")
  {
    BracketLines();
    assert CleanLine("[") && CleanLine("  A]");
  }

  /** That scan is already tidy, so the cleanup returns it as is. */
  lemma BracketCleanup()
    ensures CleanupResult("[\n  A]") == "[\n  A]"
  {
    BracketTidy();
    CleanupFixedPoints("[\n  A]");
  }

  // ---------------------------------------------------------------------
  // "{A:1, B:2}"

  lemma RecordItems()
    ensures StepAt("{A:1, B:2}", 2, State(0, 0, [])) == Next(State(1, 1, "{\n"))
    ensures StepAt("{A:1, B:2}", 2, State(1, 1, "{\n")) == Next(State(4, 1, "{\n  A:1"))
    ensures StepAt("{A:1, B:2}", 2, State(6, 1, "{\n  A:1,\n")) == Next(State(9, 1, "{\n  A:1,\n  B:2"))
  {
    TwoSpaces();
    assert ContentEnd("{A:1, B:2}", 1) == 4;
    assert ContentEnd("{A:1, B:2}", 6) == 9;
  }

  lemma RecordLayout()
    ensures StepAt("{A:1, B:2}", 2, State(4, 1, "{\n  A:1")) == Next(State(5, 1, "{\n  A:1,\n"))
    ensures StepAt("{A:1, B:2}", 2, State(5, 1, "{\n  A:1,\n")) == Next(State(6, 1, "{\n  A:1,\n"))
    ensures StepAt("{A:1, B:2}", 2, State(9, 1, "{\n  A:1,\n  B:2")) == Next(State(10, 0, "{\n  A:1,\n  B:2}"))
  {
    TwoSpaces();
  }

  /** A comma after an item ends its line; the space after the comma is
      dropped. */
  lemma RecordScan()
    ensures Render("{A:1, B:2}", 2) == Finished(State(10, 0, "{\n  A:1,\n  B:2}"))
  {
    var input := "{A:1, B:2}";
    TrimClean(input);
    RecordItems();
    RecordLayout();
    RunNext(input, 2, State(0, 0, []), State(1, 1, "{\n"));
    RunNext(input, 2, State(1, 1, "{\n"), State(4, 1, "{\n  A:1"));
    RunNext(input, 2, State(4, 1, "{\n  A:1"), State(5, 1, "{\n  A:1,\n"));
    RunNext(input, 2, State(5, 1, "{\n  A:1,\n"), State(6, 1, "{\n  A:1,\n"));
    RunNext(input, 2, State(6, 1, "{\n  A:1,\n"), State(9, 1, "{\n  A:1,\n  B:2"));
    RunNext(input, 2, State(9, 1, "{\n  A:1,\n  B:2"), State(10, 0, "{\n  A:1,\n  B:2}"));
  }

  // ---------------------------------------------------------------------
  // " [A], [B] "

  lemma SiblingsTrim()
    ensures Trim(" [A], [B] ") == "[A], [B]"
  {
    var padded := " [A], [B] ";
    var inner := " [A], [B]";
    assert padded[..|padded| - 1] == inner;
    assert TrimRight(inner) == inner;
    assert inner[1..] == "[A], [B]";
    TrimClean("[A], [B]");
    assert TrimLeft(inner) == "[A], [B]";
  }

  lemma SiblingsFirst()
    ensures StepAt("[A], [B]", 2, State(0, 0, [])) == Next(State(1, 1, "[\n"))
    ensures StepAt("[A], [B]", 2, State(1, 1, "[\n")) == Next(State(2, 1, "[\n  A"))
    ensures StepAt("[A], [B]", 2, State(2, 1, "[\n  A")) == Next(State(4, 0, "[\n  A],"))
  {
    TwoSpaces();
    assert ContentEnd("[A], [B]", 1) == 2;
  }

  lemma SiblingsSecond()
    ensures StepAt("[A], [B]", 2, State(4, 0, "[\n  A],")) == Next(State(5, 0, "[\n  A],"))
    ensures StepAt("[A], [B]", 2, State(5, 0, "[\n  A],")) == Next(State(6, 1, "[\n  A],[\n"))
    ensures StepAt("[A], [B]", 2, State(6, 1, "[\n  A],[\n")) == Next(State(7, 1, "[\n  A],[\n  B"))
    ensures StepAt("[A], [B]", 2, State(7, 1, "[\n  A],[\n  B")) == Next(State(8, 0, "[\n  A],[\n  B]"))
  {
    TwoSpaces();
    assert ContentEnd("[A], [B]", 6) == 7;
  }

  /** `]`, `,` and `[` stay on one line when a comma and a space separate
      two brackets: after `],` the next character is a space, so no line
      break is added, and `[` adds none before itself. */
  lemma SiblingsScan()
    ensures Render(" [A], [B] ", 2) == Finished(State(8, 0, "[\n  A],[\n  B]"))
  {
    var input := "[A], [B]";
    SiblingsTrim();
    SiblingsFirst();
    SiblingsSecond();
    RunNext(input, 2, State(0, 0, []), State(1, 1, "[\n"));
    RunNext(input, 2, State(1, 1, "[\n"), State(2, 1, "[\n  A"));
    RunNext(input, 2, State(2, 1, "[\n  A"), State(4, 0, "[\n  A],"));
    RunNext(input, 2, State(4, 0, "[\n  A],"), State(5, 0, "[\n  A],"));
    RunNext(input, 2, State(5, 0, "[\n  A],"), State(6, 1, "[\n  A],[\n"));
    RunNext(input, 2, State(6, 1, "[\n  A],[\n"), State(7, 1, "[\n  A],[\n  B"));
    RunNext(input, 2, State(7, 1, "[\n  A],[\n  B"), State(8, 0, "[\n  A],[\n  B]"));
  }

  // ---------------------------------------------------------------------
  // The two failures

  /** An unmatched closer drives the level to -1, and `' '.repeat(-2)`
      throws. */
  lemma StrayCloserRaises()
    ensures Render("]", 2) == Raised(-1, -2)
  {
    TrimClean("]");
    RunThrow("]", 2, State(0, 0, []), -1, -2);
  }

  /** `(` is a delimiter without a case of its own: the content run is
      empty and the loop stands still. */
  lemma ParenHangs()
    ensures Render("(A)", 2) == Hangs(State(0, 0, []))
  {
    TrimClean("(A)");
    assert ContentEnd("(A)", 0) == 0;
    RunNext("(A)", 2, State(0, 0, []), State(0, 0, []));
  }

  // ---------------------------------------------------------------------
  // Through the class

  method FormatBracket() returns (r: Result)
    ensures r == Ok("[\n  A]")
  {
    var formatter := new PCGFormatter();
    r := formatter.Format("[A]");
    BracketScan();
    assert r == Ok(CleanupResult("[\n  A]"));
    BracketCleanup();
  }

  method FormatStrayCloser() returns (r: Result)
    ensures r == Err(RangeError(-2))
  {
    var formatter := new PCGFormatter();
    StrayCloserRaises();
    r := formatter.Format("]");
  }

  method FormatParen() returns (r: Result)
    ensures r == Err(NoProgress(0))
  {
    var formatter := new PCGFormatter();
    ParenHangs();
    r := formatter.Format("(A)");
  }
}
