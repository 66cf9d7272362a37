/** Which bullets a repair reads, however they are spelled, and that it keeps them. */
module RepairOutcomes {
  import opened Prelude
  import opened TextLines
  import opened ManagedBlock
  import opened Decimals
  import opened StateRepair

  /** The parts of a bullet as people write it: how wide the gaps are, which mark, which word, leading zeros. */
  datatype Spelling = Spelling(gap1: string, mark: char, gap2: string, word: string, gap3: string, digits: string, run: string,
                               tail: string)

  predicate Gap(text: string) {
    text != "" && forall c :: c in text ==> IsSpace(c)
  }

  predicate IsMark(c: char) {
    c in {' ', 'x', 'X'}
  }

  predicate IsWord(word: string) {
    word == "Phase" || word == "Milestone"
  }

  predicate AllDigits(text: string) {
    text != "" && forall c :: c in text ==> IsDigit(c)
  }

  predicate IsRun(text: string) {
    text != "" && '*' !in text
  }

  predicate WellSpelled(s: Spelling) {
    && Gap(s.gap1) && IsMark(s.mark) && Gap(s.gap2) && IsWord(s.word)
    && Gap(s.gap3) && AllDigits(s.digits) && IsRun(s.run)
  }

  function Dash(rest: string): string {
    "-" + rest
  }

  function Spaced(gap: string, literal: string, rest: string): string {
    gap + (literal + rest)
  }

  function Box(mark: char, rest: string): string {
    [mark] + "]" + rest
  }

  function Named(word: string, rest: string): string {
    word + rest
  }

  function Numbered(gap: string, digits: string, rest: string): string {
    gap + (digits + (":" + rest))
  }

  function Titled(run: string, rest: string): string {
    run + ("**" + rest)
  }

  function FromNumber(s: Spelling): string {
    Numbered(s.gap3, s.digits, Titled(s.run, s.tail))
  }

  function Spelled(s: Spelling): string {
    Dash(Spaced(s.gap1, "[", Box(s.mark, Spaced(s.gap2, "**", Named(s.word, FromNumber(s))))))
  }

  /** The phase it stands for: completed unless the box is empty. */
  function Meant(s: Spelling): Phase {
    Phase(NumberOf(s.digits), Trim(s.run), s.mark != ' ')
  }

  // ------------------------------------------------------------------- each piece

  lemma {:induction false} SpacesOf(gap: string, rest: string)
    requires (forall c :: c in gap ==> IsSpace(c)) && (rest == "" || !IsSpace(rest[0]))
    ensures Spaces(gap + rest) == |gap|
  {
    if gap == "" {
      assert gap + rest == rest;
    } else {
      assert (gap + rest)[1..] == gap[1..] + rest;
      SpacesOf(gap[1..], rest);
    }
  }

  lemma {:induction false} SpacesAreSpaces(text: string)
    ensures forall c :: c in text[..Spaces(text)] ==> IsSpace(c)
    ensures Spaces(text) < |text| ==> !IsSpace(text[Spaces(text)])
  {
    if text != "" && IsSpace(text[0]) {
      SpacesAreSpaces(text[1..]);
      assert text[..Spaces(text)] == [text[0]] + text[1..][..Spaces(text[1..])];
    }
  }

  lemma {:induction false} NonStarsAreNone(text: string)
    ensures '*' !in text[..NonStars(text)]
  {
    if text != "" && text[0] != '*' {
      NonStarsAreNone(text[1..]);
      assert text[..NonStars(text)] == [text[0]] + text[1..][..NonStars(text[1..])];
    }
  }

  lemma {:induction false} DigitsAreDigits(text: string)
    ensures forall c :: c in text[..Digits(text)] ==> IsDigit(c)
  {
    if text != "" && IsDigit(text[0]) {
      DigitsAreDigits(text[1..]);
      assert text[..Digits(text)] == [text[0]] + text[1..][..Digits(text[1..])];
    }
  }

  /** A gap and a literal, both ways. */
  lemma GapExactly(text: string, literal: string, rest: string)
    requires literal != "" && !IsSpace(literal[0])
    ensures AfterSpaced(text, literal) == Some(rest) <==> exists gap :: Gap(gap) && text == Spaced(gap, literal, rest)
  {
    if AfterSpaced(text, literal) == Some(rest) {
      SpacesAreSpaces(text);
      var gap := text[..Spaces(text)];
      assert Gap(gap) && text == Spaced(gap, literal, rest);
    }
    if gap :| Gap(gap) && text == Spaced(gap, literal, rest) {
      SpacesOf(gap, literal + rest);
      assert text[|gap|..] == literal + rest;
      assert (literal + rest)[|literal|..] == rest;
    }
  }

  lemma BoxExactly(text: string, completed: bool, rest: string)
    ensures Checkbox(text) == Some((completed, rest)) <==>
            exists mark :: IsMark(mark) && text == Box(mark, rest) && completed == (mark != ' ')
  {
    if Checkbox(text) == Some((completed, rest)) {
      assert text == Box(text[0], rest);
    }
    if mark :| IsMark(mark) && text == Box(mark, rest) && completed == (mark != ' ') {
      assert text[2..] == rest;
    }
  }

  lemma WordExactly(text: string, rest: string)
    ensures Word(text) == Some(rest) <==> exists word :: IsWord(word) && text == Named(word, rest)
  {
    if Word(text) == Some(rest) {
      assert text == Named("Phase", rest) || text == Named("Milestone", rest);
    }
    if word :| IsWord(word) && text == Named(word, rest) {
      assert text[|word|..] == rest;
      assert "Phase"[0] == 'P' && "Milestone"[0] == 'M';
    }
  }

  lemma NumberExactly(text: string, n: nat, rest: string)
    ensures NumberAndColon(text) == Some((n, rest)) <==>
            exists gap, digits :: Gap(gap) && AllDigits(digits) && n == NumberOf(digits) && text == Numbered(gap, digits, rest)
  {
    if NumberAndColon(text) == Some((n, rest)) {
      var gap, digits := NumberFound(text, n, rest);
    }
    if gap, digits :| Gap(gap) && AllDigits(digits) && n == NumberOf(digits) && text == Numbered(gap, digits, rest) {
      NumberMatches(gap, digits, rest);
    }
    hide NumberAndColon, Gap, AllDigits, Numbered, NumberOf;
  }

  lemma NumberFound(text: string, n: nat, rest: string) returns (gap: string, digits: string)
    requires NumberAndColon(text) == Some((n, rest))
    ensures Gap(gap) && AllDigits(digits) && n == NumberOf(digits) && text == Numbered(gap, digits, rest)
  {
    hide NumberOf, IsSpace, IsDigit;
    var k := Spaces(text);
    var d := Digits(text[k..]);
    SpacesAreSpaces(text);
    DigitsAreDigits(text[k..]);
    gap, digits := text[..k], text[k..k + d];
    assert digits == text[k..][..d];
    assert text[k + d..] == ":" + rest;
  }

  lemma NumberMatches(gap: string, digits: string, rest: string)
    requires Gap(gap) && AllDigits(digits)
    ensures NumberAndColon(Numbered(gap, digits, rest)) == Some((NumberOf(digits), rest))
  {
    NumberIn(gap, digits, rest);
    DigitIsNoSpace(digits, rest);
    hide NumberOf, IsSpace, IsDigit;
    SpacesOf(gap, digits + (":" + rest));
    DigitsOf(digits, ":" + rest);
    hide Spaces, Digits, Gap, AllDigits, Numbered;
    AfterColon(rest);
  }

  lemma AfterColon(rest: string)
    ensures After(":" + rest, ":") == Some(rest)
  {
    assert (":" + rest)[1..] == rest;
  }

  lemma DigitIsNoSpace(digits: string, rest: string)
    requires AllDigits(digits)
    ensures !IsSpace((digits + (":" + rest))[0]) && !IsDigit((":" + rest)[0])
  {
    assert digits[0] in digits;
  }

  lemma NumberIn(gap: string, digits: string, rest: string)
    ensures
      var text, k := Numbered(gap, digits, rest), |gap|;
      && text[k..] == digits + (":" + rest) && text[k..k + |digits|] == digits && text[k + |digits|..] == ":" + rest
  {
  }

  lemma TitleExactly(text: string, title: string, rest: string)
    ensures Title(text) == Some((title, rest)) <==>
            exists run :: IsRun(run) && title == Trim(run) && text == Titled(run, rest)
  {
    if Title(text) == Some((title, rest)) {
      NonStarsAreNone(text);
      var run := text[..NonStars(text)];
      assert IsRun(run) && text == Titled(run, rest);
    }
    if run :| IsRun(run) && title == Trim(run) && text == Titled(run, rest) {
      NonStarsOf(run, "**" + rest);
      assert text[|run|..] == "**" + rest && text[..|run|] == run;
      assert ("**" + rest)[2..] == rest;
    }
  }

  lemma DashExactly(text: string, rest: string)
    ensures After(text, "-") == Some(rest) <==> text == Dash(rest)
  {
    if text == Dash(rest) {
      assert text[1..] == rest;
    }
  }

  // ------------------------------------------------------------------ the whole bullet

  /** What matches is a well-spelled bullet, and it is read as it is meant. */
  lemma MatchIsSpelled(text: string) returns (s: Spelling)
    requires Match(text).Some?
    ensures WellSpelled(s) && text == Spelled(s) && Match(text) == Some((Meant(s), s.tail))
  {
    var a := After(text, "-").value;
    var b := AfterSpaced(a, "[").value;
    var c := Checkbox(b).value;
    var d := AfterSpaced(c.1, "**").value;
    var e := Word(d).value;
    var f := NumberAndColon(e).value;
    var g := Title(f.1).value;
    NoSpaces();
    hide After, AfterSpaced, Checkbox, Word, NumberAndColon, Title, NumberOf, Trim, Gap, IsMark, IsWord, AllDigits, IsRun,
      Dash, Spaced, Box, Named, Numbered, Titled;
    DashExactly(text, a);
    GapExactly(a, "[", b);
    var gap1 :| Gap(gap1) && a == Spaced(gap1, "[", b);
    BoxExactly(b, c.0, c.1);
    var mark :| IsMark(mark) && b == Box(mark, c.1) && c.0 == (mark != ' ');
    GapExactly(c.1, "**", d);
    var gap2 :| Gap(gap2) && c.1 == Spaced(gap2, "**", d);
    WordExactly(d, e);
    var word :| IsWord(word) && d == Named(word, e);
    NumberExactly(e, f.0, f.1);
    var gap3, digits :| Gap(gap3) && AllDigits(digits) && f.0 == NumberOf(digits) && e == Numbered(gap3, digits, f.1);
    TitleExactly(f.1, g.0, g.1);
    var run :| IsRun(run) && g.0 == Trim(run) && f.1 == Titled(run, g.1);
    s := Spelling(gap1, mark, gap2, word, gap3, digits, run, g.1);
  }

  lemma NoSpaces()
    ensures !IsSpace("["[0]) && !IsSpace("**"[0])
  {
  }

  /** And every well-spelled bullet matches. */
  lemma SpelledMatches(s: Spelling)
    requires WellSpelled(s)
    ensures Match(Spelled(s)) == Some((Meant(s), s.tail))
  {
    NoSpaces();
    hide After, AfterSpaced, Checkbox, Word, NumberAndColon, Title, NumberOf, Trim, Gap, IsMark, IsWord, AllDigits, IsRun,
      Dash, Spaced, Box, Named, Numbered, Titled;
    var f := Titled(s.run, s.tail);
    var e := Numbered(s.gap3, s.digits, f);
    var d := Named(s.word, e);
    var c := Spaced(s.gap2, "**", d);
    var b := Box(s.mark, c);
    var a := Spaced(s.gap1, "[", b);
    DashExactly(Dash(a), a);
    GapExactly(a, "[", b);
    BoxExactly(b, s.mark != ' ', c);
    GapExactly(c, "**", d);
    WordExactly(d, e);
    NumberExactly(e, NumberOf(s.digits), f);
    TitleExactly(f, Trim(s.run), s.tail);
  }

  // --------------------------------------------------------------- lines of bullets

  lemma {:induction false} RestOfLine(tail: string, more: string)
    requires '\n' !in tail
    ensures Scan(tail + ("\n" + more), false) == Scan(more, true)
  {
    hide Match;
    if tail == "" {
      assert tail + ("\n" + more) == "\n" + more;
      ScanLineEnd(more);
    } else {
      assert (tail + ("\n" + more))[1..] == tail[1..] + ("\n" + more);
      RestOfLine(tail[1..], more);
    }
  }

  function SpelledLines(bullets: seq<Spelling>): string {
    if bullets == [] then "" else Spelled(bullets[0]) + ("\n" + SpelledLines(bullets[1..]))
  }

  function AllMeant(bullets: seq<Spelling>): seq<Phase> {
    seq(|bullets|, i requires 0 <= i < |bullets| => Meant(bullets[i]))
  }

  lemma TailLater(s: Spelling, more: string)
    ensures Spelled(s) + more == Spelled(s.(tail := s.tail + more))
  {
  }

  /** A list of bullets, one to a line, in any spelling, is read as what it means, in order. */
  lemma {:induction false} SpelledLinesAreRead(bullets: seq<Spelling>)
    requires forall s :: s in bullets ==> WellSpelled(s) && '\n' !in s.tail
    ensures Scan(SpelledLines(bullets), true) == AllMeant(bullets)
  {
    if bullets == [] {
      assert AllMeant(bullets) == [];
    } else {
      var s, rest := bullets[0], bullets[1..];
      assert s in bullets;
      SpelledLinesAreRead(rest);
      AllMeantCons(bullets);
      hide Match, Spelled, Meant, WellSpelled, Scan, AllMeant;
      OneLineIsRead(s, SpelledLines(rest));
    }
  }

  lemma AllMeantCons(bullets: seq<Spelling>)
    requires bullets != []
    ensures AllMeant(bullets) == [Meant(bullets[0])] + AllMeant(bullets[1..])
  {
    hide Meant;
  }

  lemma OneLineIsRead(s: Spelling, more: string)
    requires WellSpelled(s) && '\n' !in s.tail
    ensures Scan(Spelled(s) + ("\n" + more), true) == [Meant(s)] + Scan(more, true)
  {
    var longer := s.(tail := s.tail + ("\n" + more));
    TailLater(s, "\n" + more);
    MeansTheSame(s, "\n" + more);
    hide Match, Spelled, Meant, Scan;
    SpelledMatches(longer);
    FirstMatch(Spelled(longer), Meant(s), s.tail + ("\n" + more));
    RestOfLine(s.tail, more);
  }

  lemma MeansTheSame(s: Spelling, more: string)
    ensures Meant(s.(tail := s.tail + more)) == Meant(s)
  {
  }

  lemma FirstMatch(text: string, p: Phase, rest: string)
    requires Match(text) == Some((p, rest))
    ensures Scan(text, true) == [p] + Scan(rest, false)
  {
    hide Match;
    assert text != "" by {
      NothingMatches();
    }
  }

  lemma NothingMatches()
    ensures Match("").None?
  {
  }

  // ------------------------------------------------------------------- over a repair

  /** A text whose block holds printed phases has those phases. */
  lemma BlockHoldsPhases(text: string, k: nat, phases: seq<Phase>, section: seq<Phase>)
    requires Parse(text).Accepted? && k < |Parse(text).doc| && GoodTitles(phases)
    requires Parse(text).doc[k] == Block(SLUG, Bullets(phases))
    ensures PhasesOf(text, section) == phases
  {
    var doc := Parse(text).doc;
    FlatOfLines(text, NL);
    GrammarExactly(Lines(text, NL));
    hide Lines, ParseLines, BlockMap, Slugs, Print, Distinct, Flat, Scan, Bullets, Render, Doc, GoodTitles, ValidSlug, Clean;
    BlockAt(doc, k);
    SlugsContain(doc, k);
    PrintThenParse(phases);
  }

  /** A repair that leaves a readable text keeps the phases: those it read are those the next reader finds, numbers, titles,
      marks and order. */
  lemma RepairKeepsPhases(text: string, section: seq<Phase>, section': seq<Phase>)
    requires Parse(text).Accepted? && GoodTitles(PhasesOf(text, section))
    requires Repair(text, section).Replaced? && Parse(Repair(text, section).text).Accepted?
    ensures PhasesOf(Repair(text, section).text, section') == PhasesOf(text, section)
  {
    var phases := PhasesOf(text, section);
    var k := RepairedBlock(text, section);
    hide PhasesOf, Repair, Parse, GoodTitles, Bullets;
    BlockHoldsPhases(Repair(text, section).text, k, phases, section');
  }

  /** Where the block is after a repair. */
  lemma RepairedBlock(text: string, section: seq<Phase>) returns (k: nat)
    requires Parse(text).Accepted? && GoodTitles(PhasesOf(text, section))
    requires Repair(text, section).Replaced? && Parse(Repair(text, section).text).Accepted?
    ensures
      var after := Repair(text, section).text;
      k < |Parse(after).doc| && Parse(after).doc[k] == Block(SLUG, Bullets(PhasesOf(text, section)))
  {
    PayloadIsCanonical(PhasesOf(text, section));
    SlugIsValid();
    if SLUG in Slugs(Parse(text).doc) {
      hide Parse, Slugs, Replace, Bullets, PhasesOf, GoodTitles, AllPlain, ValidSlug, CanonicalLines;
      ReplaceRoundTrip(text, SLUG, Payload(PhasesOf(text, section)));
      k := FindSlug(Parse(text).doc, SLUG);
    } else {
      NewBlockHasSection(text, section);
      if Find(text, HEADING).Some? {
        k := BlockInPlace(text, section);
      } else {
        k := BlockAtEnd(text, section);
      }
    }
  }

  lemma NewBlockHasSection(text: string, section: seq<Phase>)
    requires Parse(text).Accepted? && SLUG !in Slugs(Parse(text).doc)
    ensures PhasesOf(text, section) == section
  {
    BlockMapKeys(Parse(text).doc);
    hide Scan, BlockMap, Slugs, Lines, ParseLines;
  }

  lemma BlockInPlace(text: string, section: seq<Phase>) returns (k: nat)
    requires Parse(text).Accepted? && SLUG !in Slugs(Parse(text).doc) && Find(text, HEADING).Some?
    requires GoodTitles(section) && Repair(text, section).Replaced? && Parse(Repair(text, section).text).Accepted?
    ensures
      var after := Repair(text, section).text;
      k < |Parse(after).doc| && Parse(after).doc[k] == Block(SLUG, Bullets(section))
  {
    var (pre, post) := Around(text);
    FirstRepairReadable(text, section);
    FirstRepairIs(text, section);
    PayloadIsCanonical(section);
    HeadingPlace(text, Find(text, HEADING).value);
    hide Parse, Around, Slugs, Render, Payload, GoodTitles, CanonicalLines, AllPlain, Lines, Repair, Find, Bullets;
    WholeCutAccepted(pre, text[|pre|..|text| - |post|], post, Payload(section));
    var r := Repair(text, section).text;
    k :| 0 <= k < |Parse(r).doc| && Parse(r).doc[k] == Block(SLUG, CanonicalLines(Payload(section)));
  }

  lemma BlockAtEnd(text: string, section: seq<Phase>) returns (k: nat)
    requires Parse(text).Accepted? && SLUG !in Slugs(Parse(text).doc) && Find(text, HEADING).None?
    requires GoodTitles(section)
    ensures
      var after := Repair(text, section).text;
      Parse(after).Accepted? && k < |Parse(after).doc| && Parse(after).doc[k] == Block(SLUG, Bullets(section))
  {
    AppendedBlock(text, section);
    var pre := Around(text).0;
    k := |Doc(Lines(pre, NL))|;
  }

  // ------------------------------------------------------------ what a first repair replaces

  lemma {:induction false} NewlineAfter(line: string, rest: string)
    requires '\n' !in line
    ensures Find(line + ("\n" + rest), "\n") == Some(|line|)
  {
    if line == "" {
      assert line + ("\n" + rest) == "\n" + rest;
    } else {
      assert (line + ("\n" + rest))[1..] == line[1..] + ("\n" + rest);
      assert (line + ("\n" + rest))[0] == line[0] != '\n';
      NewlineAfter(line[1..], rest);
    }
  }

  /** A first repair puts the block in place of the section's own text: all up to the end of the heading's line stays, and
      so does all from the next heading on. */
  lemma SectionIsReplaced(before: string, title: string, body: string, rest: string, section: seq<Phase>)
    requires '\n' !in title
    requires
      var text := before + (HEADING + title + ("\n" + (body + rest)));
      && Parse(text).Accepted? && SLUG !in Slugs(Parse(text).doc) && Find(text, HEADING) == Some(|before|)
    requires Find(body + rest, NEXT_HEADING) == if rest == "" then None else Some(|body|)
    ensures Repair(before + (HEADING + title + ("\n" + (body + rest))), section)
         == Replaced(before + HEADING + title + "\n" + Render(SLUG, Payload(section)) + rest)
  {
    var text := before + (HEADING + title + ("\n" + (body + rest)));
    var pre := before + HEADING + title + "\n";
    FirstRepairIs(text, section);
    AroundSection(before, title, body, rest);
    hide Repair, Around, Parse, Slugs, Render, Payload, Find;
    assert pre == before + HEADING + title + "\n";
  }

  lemma AroundSection(before: string, title: string, body: string, rest: string)
    requires '\n' !in title
    requires Find(before + (HEADING + title + ("\n" + (body + rest))), HEADING) == Some(|before|)
    requires Find(body + rest, NEXT_HEADING) == if rest == "" then None else Some(|body|)
    ensures Around(before + (HEADING + title + ("\n" + (body + rest)))) == (before + HEADING + title + "\n", rest)
  {
    var line := HEADING + title;
    HeadingIsOneLine(title);
    NewlineAfter(line, body + rest);
    SectionCut(before, line, body, rest);
    Regrouped(before, HEADING, title);
    hide Find, Section;
  }

  lemma Regrouped(before: string, heading: string, title: string)
    ensures before + (heading + title) + "\n" == before + heading + title + "\n"
  {
  }

  lemma HeadingIsOneLine(title: string)
    requires '\n' !in title
    ensures '\n' !in HEADING + title
  {
    assert Printable(HEADING);
  }

  lemma SectionCut(before: string, line: string, body: string, rest: string)
    requires Find(line + ("\n" + (body + rest)), "\n") == Some(|line|)
    requires Find(body + rest, NEXT_HEADING) == if rest == "" then None else Some(|body|)
    ensures
      var text := before + (line + ("\n" + (body + rest)));
      var (from, end) := Section(text, |before|);
      text[..from] == before + line + "\n" && text[end..] == rest
  {
    hide Find;
    var text := before + (line + ("\n" + (body + rest)));
    assert text[|before|..] == line + ("\n" + (body + rest));
    var from := |before| + |line| + 1;
    assert text[from..] == body + rest;
    assert text[..from] == before + line + "\n";
    assert text[from + |body|..] == rest;
  }
}
