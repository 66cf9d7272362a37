/** What the text engines write, letter by letter, and what their normal forms keep. */
module TextFormats {
  import opened Prelude
  import opened TextLines
  import AppendBlock
  import ManagedBlock
  import StateRepair

  predicate EndsBlank(text: string) {
    |text| >= 2 && text[|text| - 2] == '\n' && text[|text| - 1] == '\n'
  }

  /** The separator makes one empty line before a block, with no more newlines than that takes. */
  lemma SeparatorMakesAnEmptyLine(text: string)
    ensures AppendBlock.Sep("") == ""
    ensures text != "" ==> EndsBlank(text + AppendBlock.Sep(text))
    ensures AppendBlock.Sep(text) in {"", "\n", "\n\n"}
    ensures AppendBlock.Sep(text) != "" ==> !EndsBlank(text + AppendBlock.Sep(text)[1..])
  {
    if AppendBlock.Sep(text) == "\n" {
      assert "\n"[1..] == "" && text + "" == text;
    } else if AppendBlock.Sep(text) == "\n\n" {
      assert "\n\n"[1..] == "\n";
    }
  }

  /** A normalised payload ends with exactly one newline, and is otherwise the text. */
  lemma {:induction false} NormalisedEndsOnce(text: string) returns (stem: string)
    ensures AppendBlock.NormalizePayload(text) == stem + "\n" && stem <= text
    ensures stem != "" ==> stem[|stem| - 1] != '\n'
    ensures forall i :: |stem| <= i < |text| ==> text[i] == '\n'
  {
    if text != "" && text[|text| - 1] == '\n' {
      stem := NormalisedEndsOnce(text[..|text| - 1]);
    } else {
      stem := text;
    }
  }

  /** A canonical payload line by line: the text's own lines without the blanks at their ends, up to the last that is not
      empty. */
  lemma CanonicalKeepsLines(text: string)
    ensures
      var own, kept := Lines(Read(text), ManagedBlock.NL), ManagedBlock.CanonicalLines(text);
      && |kept| <= |own|
      && (forall i :: 0 <= i < |kept| ==> kept[i] == ManagedBlock.TrimBlanks(Strip(own[i])) + "\n")
      && (forall i :: |kept| <= i < |own| ==> ManagedBlock.TrimBlanks(Strip(own[i])) == "")
      && (kept != [] ==> kept[|kept| - 1] != "\n")
  {
    var own := Lines(Read(text), ManagedBlock.NL);
    var trimmed := ManagedBlock.TrimAll(own);
    var dropped := ManagedBlock.DropEmpty(trimmed);
    OnlyEmptyDropped(trimmed);
    ManagedBlock.DropEmptyIsPrefix(trimmed);
    hide ManagedBlock.DropEmpty, ManagedBlock.TrimBlanks, Lines, Read, Strip;
    forall i | |dropped| <= i < |own| ensures ManagedBlock.TrimBlanks(Strip(own[i])) == "" {
      assert trimmed[i] == "";
    }
    forall i | 0 <= i < |dropped| ensures ManagedBlock.CanonicalLines(text)[i] == ManagedBlock.TrimBlanks(Strip(own[i])) + "\n" {
      assert dropped[i] == trimmed[i];
    }
    if dropped != [] {
      var last := dropped[|dropped| - 1];
      assert |last + "\n"| > |"\n"|;
    }
  }

  lemma {:induction false} OnlyEmptyDropped(lines: seq<string>)
    ensures ManagedBlock.DropEmpty(lines) <= lines
    ensures forall i :: |ManagedBlock.DropEmpty(lines)| <= i < |lines| ==> lines[i] == ""
  {
    if lines != [] && lines[|lines| - 1] == "" {
      OnlyEmptyDropped(lines[..|lines| - 1]);
    }
  }

  /** Trimming takes blanks off the end of a line and nothing else. */
  lemma {:induction false} TrimTakesBlanks(line: string)
    ensures ManagedBlock.TrimBlanks(line) <= line
    ensures forall i :: |ManagedBlock.TrimBlanks(line)| <= i < |line| ==> line[i] in {' ', '\t'}
    ensures
      var trimmed := ManagedBlock.TrimBlanks(line);
      trimmed != "" ==> trimmed[|trimmed| - 1] !in {' ', '\t'}
  {
    if line != "" && line[|line| - 1] in {' ', '\t'} {
      TrimTakesBlanks(line[..|line| - 1]);
    }
  }

  // ------------------------------------------------------------------ letter by letter

  lemma AppendBlockText()
    ensures AppendBlock.Render("A", "2", "one\n\n")
         == "# >>> low-reasoning-harness:A v2\none\n# <<< low-reasoning-harness:A\n"
  {
    var text := "one\n\n";
    assert text[..4] == "one\n" && "one\n"[..3] == "one";
    assert AppendBlock.NormalizePayload("one") == "one\n";
    assert AppendBlock.NormalizePayload("one\n") == "one\n";
    assert AppendBlock.NormalizePayload(text) == "one\n";
    hide AppendBlock.NormalizePayload;
    var start, end := "# >>> low-reasoning-harness:A v2\n", "# <<< low-reasoning-harness:A";
    assert AppendBlock.StartPrefix("A") + "2" + "\n" == start;
    assert AppendBlock.EndText("A") == end;
    Joined(start, "one\n", end);
  }

  lemma Joined(start: string, payload: string, end: string)
    requires start == "# >>> low-reasoning-harness:A v2\n" && payload == "one\n" && end == "# <<< low-reasoning-harness:A"
    ensures start + payload + end + "\n"
         == "# >>> low-reasoning-harness:A v2\none\n# <<< low-reasoning-harness:A\n"
  {
    assert start + payload == "# >>> low-reasoning-harness:A v2\none\n";
    assert start + payload + end == "# >>> low-reasoning-harness:A v2\none\n# <<< low-reasoning-harness:A";
  }

  lemma ManagedBlockLines()
    ensures ManagedBlock.BeginLine("roadmap-phases") == "<!-- HARNESS:BEGIN managed:roadmap-phases v1 -->\n"
    ensures ManagedBlock.EndLine("roadmap-phases") == "<!-- HARNESS:END managed:roadmap-phases -->\n"
    ensures StateRepair.SLUG == "roadmap-phases" && StateRepair.HEADING == "## Phases"
  {
  }

  lemma BulletTexts()
    ensures StateRepair.Bullet(StateRepair.Phase(3, "Ship", true)) == "- [x] **Milestone 3: Ship**\n"
    ensures StateRepair.Bullet(StateRepair.Phase(3, "Ship", false)) == "- [ ] **Milestone 3: Ship**\n"
  {
  }
}
