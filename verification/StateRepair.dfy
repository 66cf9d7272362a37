/** Repair of the roadmap: the phase bullets read from it, printed in canonical form, in their managed block. */
module StateRepair {
  import opened Prelude
  import opened TextLines
  import opened ManagedBlock
  import opened Decimals

  const SLUG := "roadmap-phases"
  const HEADING := "## Phases"
  const NEXT_HEADING := "\n## "

  datatype Phase = Phase(number: nat, title: string, completed: bool)

  // ---------------------------------------------------------------- the bullet pattern

  function Spaces(text: string): (n: nat)
    ensures n <= |text|
  {
    if text != "" && IsSpace(text[0]) then 1 + Spaces(text[1..]) else 0
  }

  function NonStars(text: string): (n: nat)
    ensures n <= |text|
  {
    if text != "" && text[0] != '*' then 1 + NonStars(text[1..]) else 0
  }

  /** `strip()` */
  function Trim(text: string): string {
    if text != "" && IsSpace(text[0]) then Trim(text[1..])
    else if text != "" && IsSpace(text[|text| - 1]) then Trim(text[..|text| - 1])
    else text
  }

  /** A literal at the beginning; what follows it. */
  function After(text: string, literal: string): (r: Option<string>)
    ensures r.Some? ==> text == literal + r.value
  {
    if literal <= text then Some(text[|literal|..]) else None
  }

  /** One or more spaces, then a literal. */
  function AfterSpaced(text: string, literal: string): (r: Option<string>)
    ensures r.Some? ==> |r.value| + |literal| < |text|
  {
    var n := Spaces(text);
    if n == 0 then None else After(text[n..], literal)
  }

  function Checkbox(text: string): (r: Option<(bool, string)>)
    ensures r.Some? ==> |r.value.1| < |text|
  {
    if |text| >= 2 && text[0] in {' ', 'x', 'X'} && text[1] == ']' then Some((text[0] != ' ', text[2..])) else None
  }

  function Word(text: string): (r: Option<string>)
    ensures r.Some? ==> |r.value| < |text|
  {
    if After(text, "Phase").Some? then After(text, "Phase") else After(text, "Milestone")
  }

  function NumberAndColon(text: string): (r: Option<(nat, string)>)
    ensures r.Some? ==> |r.value.1| < |text|
  {
    var n := Spaces(text);
    var d := Digits(text[n..]);
    if n == 0 || d == 0 then None
    else
      var rest := After(text[n + d..], ":");
      if rest.None? then None else Some((NumberOf(text[n..n + d]), rest.value))
  }

  /** Everything up to the closing stars, which must be there, and at least one character before them. */
  function Title(text: string): (r: Option<(string, string)>)
    ensures r.Some? ==> |r.value.1| < |text|
  {
    var n := NonStars(text);
    var rest := After(text[n..], "**");
    if n == 0 || rest.None? then None else Some((Trim(text[..n]), rest.value))
  }

  /** The bullet pattern at the beginning of a text: the phase, and what follows the match. */
  function Match(text: string): (r: Option<(Phase, string)>)
    ensures r.Some? ==> |r.value.1| < |text|
  {
    var a := After(text, "-");
    if a.None? then None else
    var b := AfterSpaced(a.value, "[");
    if b.None? then None else
    var c := Checkbox(b.value);
    if c.None? then None else
    var d := AfterSpaced(c.value.1, "**");
    if d.None? then None else
    var e := Word(d.value);
    if e.None? then None else
    var f := NumberAndColon(e.value);
    if f.None? then None else
    var g := Title(f.value.1);
    if g.None? then None else
    Some((Phase(f.value.0, g.value.0, c.value.0), g.value.1))
  }

  /** All matches, left to right, each at the start of a line. */
  function Scan(text: string, atStart: bool): seq<Phase>
    decreases |text|
  {
    if text == "" then []
    else
      var m := Match(text);
      if atStart && m.Some? then [m.value.0] + Scan(m.value.1, false)
      else Scan(text[1..], text[0] == '\n')
  }

  // ------------------------------------------------------------------------- printing

  function BulletStart(p: Phase): string {
    "- [" + (if p.completed then "x" else " ") + "] **Milestone "
  }

  function BulletBody(p: Phase): string {
    BulletStart(p) + Dec(p.number) + ": " + p.title + "**"
  }

  function Bullet(p: Phase): string {
    BulletBody(p) + "\n"
  }

  function Bullets(phases: seq<Phase>): seq<string> {
    seq(|phases|, i requires 0 <= i < |phases| => Bullet(phases[i]))
  }

  function Payload(phases: seq<Phase>): string {
    Flat(Bullets(phases))
  }

  /** Titles on one line; what the pattern captures is always trimmed and free of stars. */
  predicate GoodTitle(title: string) {
    '*' !in title && '\n' !in title && '\r' !in title && Trim(title) == title
  }

  predicate GoodTitles(phases: seq<Phase>) {
    forall p :: p in phases ==> GoodTitle(p.title)
  }

  lemma {:induction false} NonStarsOf(run: string, rest: string)
    requires '*' !in run && rest != "" && rest[0] == '*'
    ensures NonStars(run + rest) == |run|
  {
    if run != "" {
      assert (run + rest)[1..] == run[1..] + rest;
      NonStarsOf(run[1..], rest);
    } else {
      assert run + rest == rest;
    }
  }

  lemma OneSpace(rest: string)
    requires rest != "" && !IsSpace(rest[0])
    ensures Spaces(" " + rest) == 1 && (" " + rest)[1..] == rest
  {
    assert (" " + rest)[1..] == rest;
  }

  lemma SpacedLiteral(literal: string, rest: string)
    requires literal != "" && !IsSpace(literal[0])
    ensures AfterSpaced(" " + literal + rest, literal) == Some(rest)
  {
    assert " " + literal + rest == " " + (literal + rest);
    OneSpace(literal + rest);
  }

  lemma NumberPieces(digits: string, rest: string)
    ensures
      var text := " " + digits + ":" + rest;
      && text == " " + (digits + (":" + rest))
      && text[1..] == digits + (":" + rest)
      && text[1..1 + |digits|] == digits && text[1 + |digits|..] == ":" + rest
  {
  }

  lemma NumberReadsBack(n: nat, rest: string)
    ensures NumberAndColon(" " + Dec(n) + ":" + rest) == Some((n, rest))
  {
    DecReadsBack(n);
    assert Dec(n)[0] in Dec(n);
    hide Dec, NumberOf, Spaces, Digits;
    NumberPieces(Dec(n), rest);
    OneSpace(Dec(n) + (":" + rest));
    DigitsOf(Dec(n), ":" + rest);
    assert (":" + rest)[1..] == rest;
  }

  lemma TitleReadsBack(title: string, rest: string)
    requires '*' !in title && Trim(title) == title
    ensures Title(" " + title + "**" + rest) == Some((title, rest))
  {
    var run := " " + title;
    NonStarsOf(run, "**" + rest);
    assert run + "**" + rest == run + ("**" + rest);
    assert (run + ("**" + rest))[|run|..] == "**" + rest;
    assert run[1..] == title;
    assert Trim(run) == title;
  }

  /** A printed bullet matches, with nothing lost. */
  lemma BulletMatches(p: Phase, rest: string)
    requires GoodTitle(p.title)
    ensures Match(BulletBody(p) + rest) == Some((p, rest))
  {
    var mark := if p.completed then "x" else " ";
    var g := " " + p.title + "**" + rest;
    var f := " " + Dec(p.number) + ":" + g;
    var e := "Milestone" + f;
    var d := " " + "**" + e;
    var c := mark + "]" + d;
    var b := " " + "[" + c;
    var text := "-" + b;
    assert !IsSpace('[') && !IsSpace('*');
    hide NumberAndColon, Title, AfterSpaced, Trim, Dec, IsSpace, Checkbox, Word;
    BulletShape(mark, Dec(p.number), p.title, rest);
    assert After(text, "-") == Some(b) by {
      assert text[1..] == b;
    }
    SpacedLiteral("[", c);
    BoxReadsBack(p.completed, d);
    SpacedLiteral("**", e);
    WordReadsBack(f);
    NumberReadsBack(p.number, g);
    TitleReadsBack(p.title, rest);
  }

  lemma BulletShape(mark: string, num: string, title: string, rest: string)
    ensures "- [" + mark + "] **Milestone " + num + ": " + title + "**" + rest
         == "-" + (" " + "[" + (mark + "]" + (" " + "**" + ("Milestone" + (" " + num + ":" + (" " + title + "**" + rest))))))
  {
    assert "- [" == "-" + " " + "[";
    assert "] **Milestone " == "]" + " " + "**" + "Milestone" + " ";
    assert ": " == ":" + " ";
  }

  lemma BoxReadsBack(completed: bool, rest: string)
    ensures Checkbox((if completed then "x" else " ") + "]" + rest) == Some((completed, rest))
  {
    var text := (if completed then "x" else " ") + "]" + rest;
    assert text[2..] == rest;
  }

  lemma WordReadsBack(rest: string)
    ensures Word("Milestone" + rest) == Some(rest)
  {
    var text := "Milestone" + rest;
    assert text[0] == 'M' && "Phase"[0] == 'P';
    assert text[|"Milestone"|..] == rest;
  }

  lemma FlatCons(line: string, rest: seq<string>)
    ensures Flat([line] + rest) == line + Flat(rest)
  {
    assert ([line] + rest)[1..] == rest;
  }

  lemma BulletsCons(phases: seq<Phase>)
    requires phases != []
    ensures Payload(phases) == BulletBody(phases[0]) + ("\n" + Payload(phases[1..]))
  {
    hide Flat, BulletBody;
    assert Bullets(phases) == [Bullet(phases[0])] + Bullets(phases[1..]);
    FlatCons(Bullet(phases[0]), Bullets(phases[1..]));
  }

  lemma BulletIsNotEmpty(p: Phase)
    ensures BulletBody(p) != "" && BulletBody(p)[0] == '-' && BulletBody(p)[|BulletBody(p)| - 1] == '*'
  {
  }

  /** Phases printed as bullets are read back unchanged. */
  lemma {:induction false} PrintThenParse(phases: seq<Phase>)
    requires GoodTitles(phases)
    ensures Scan(Payload(phases), true) == phases
  {
    if phases != [] {
      var p, rest := phases[0], Payload(phases[1..]);
      assert p in phases;
      BulletsCons(phases);
      PrintThenParse(phases[1..]);
      BulletMatches(p, "\n" + rest);
      BulletIsNotEmpty(p);
      hide Payload, Match, BulletBody, GoodTitles;
      OneMatch(BulletBody(p), p, "\n" + rest);
      ScanLineEnd(rest);
      HeadAndRest(phases);
    }
  }

  lemma OneMatch(body: string, p: Phase, rest: string)
    requires body != "" && Match(body + rest) == Some((p, rest))
    ensures Scan(body + rest, true) == [p] + Scan(rest, false)
  {
    hide Match;
    assert body + rest != "";
  }

  lemma ScanLineEnd(rest: string)
    ensures Scan("\n" + rest, false) == Scan(rest, true)
  {
    assert ("\n" + rest)[1..] == rest;
  }

  // ----------------------------------------------------- the payload is canonical text

  lemma {:induction false} DecIsPlainText(n: nat)
    ensures '\n' !in Dec(n) && '\r' !in Dec(n)
  {
    DecReadsBack(n);
  }

  lemma StartIsPlainText(p: Phase)
    ensures '\n' !in BulletStart(p) && '\r' !in BulletStart(p)
  {
    assert Printable(BulletStart(p));
  }

  lemma BodyIsPlainText(p: Phase)
    requires GoodTitle(p.title)
    ensures '\n' !in BulletBody(p) && '\r' !in BulletBody(p)
  {
    DecIsPlainText(p.number);
    StartIsPlainText(p);
    hide Dec, BulletStart, Trim;
  }

  lemma BulletIsALine(p: Phase)
    requires GoodTitle(p.title)
    ensures IsLine(Bullet(p), NL) && Ended(Bullet(p), NL) && Strip(Bullet(p)) == BulletBody(p)
    ensures TrimBlanks(BulletBody(p)) == BulletBody(p) && BulletBody(p) != "" && '\r' !in Bullet(p)
    ensures Plain(Bullet(p))
  {
    BodyIsPlainText(p);
    BulletIsNotEmpty(p);
    hide BulletBody, GoodTitle;
    StripOfTerminated(BulletBody(p));
    assert BEGIN_PRE[0] == '<' == END_PRE[0];
  }

  lemma BulletLines(phases: seq<Phase>)
    requires GoodTitles(phases)
    ensures Lines(Payload(phases), NL) == Bullets(phases)
    ensures TrimAll(Bullets(phases)) == seq(|phases|, i requires 0 <= i < |phases| => BulletBody(phases[i]))
    ensures AllPlain(Bullets(phases)) && '\r' !in Payload(phases)
  {
    forall i | 0 <= i < |phases|
      ensures IsLine(Bullets(phases)[i], NL) && Ended(Bullets(phases)[i], NL) && '\r' !in Bullets(phases)[i]
      ensures Plain(Bullets(phases)[i]) && TrimBlanks(Strip(Bullets(phases)[i])) == BulletBody(phases[i])
    {
      assert phases[i] in phases;
      BulletIsALine(phases[i]);
    }
    hide IsLine, Ended, Plain, Bullet, BulletBody, GoodTitles;
    LinesOfFlat(Bullets(phases), NL);
    FlatHasNoReturn(Bullets(phases));
  }

  /** The payload is its own canonical form, and none of its lines is a marker. */
  lemma PayloadIsCanonical(phases: seq<Phase>)
    requires GoodTitles(phases)
    ensures CanonicalLines(Payload(phases)) == Bullets(phases) && AllPlain(CanonicalLines(Payload(phases)))
  {
    BulletLines(phases);
    ReadIsIdentityExactly(Payload(phases));
    var bodies := TrimAll(Bullets(phases));
    if phases != [] {
      BulletIsNotEmpty(phases[|phases| - 1]);
    }
    hide Payload, BulletBody, GoodTitles, Lines, Read, AllPlain;
    assert DropEmpty(bodies) == bodies;
    assert Terminated(bodies) == Bullets(phases);
  }

  // --------------------------------------------------------------------- the repair

  function FindFrom(text: string, pattern: string, from: nat): (n: Option<nat>)
    requires from <= |text|
    ensures n.Some? ==> from <= n.value && n.value + |pattern| <= |text|
    ensures n.Some? && pattern != "" ==> text[n.value] == pattern[0]
  {
    var n := Find(text[from..], pattern);
    if n.Some? then Some(from + n.value) else None
  }

  /** Where the section's own text begins and ends: after the heading's line, and before the next heading. */
  function Section(text: string, heading: nat): (cut: (nat, nat))
    requires heading <= |text|
    ensures cut.0 <= cut.1 <= |text|
  {
    var newline := FindFrom(text, "\n", heading);
    var from := if newline.Some? then newline.value + 1 else |text|;
    var end := FindFrom(text, NEXT_HEADING, from);
    (from, if end.Some? then end.value else |text|)
  }

  /** A text brought to a line end, and one empty line. */
  function Finished(text: string): string {
    (if text != "" && text[|text| - 1] == '\n' then text else text + "\n") + "\n"
  }

  /** The text before and after the place of the block: around the section, or at the end of a text without one. */
  function Around(text: string): (string, string) {
    var heading := Find(text, HEADING);
    if heading.None? then
      (Finished(text), "")
    else
      var (from, end) := Section(text, heading.value);
      (text[..from], text[end..])
  }

  /** The text with its block put in or replaced. */
  function Wrap(text: string, payload: string): ReplaceResult {
    match Parse(text)
    case Rejected(error) => Refused(error)
    case Accepted(doc) =>
      if SLUG in Slugs(doc) then Replace(text, SLUG, payload)
      else Replaced(Around(text).0 + Render(SLUG, payload) + Around(text).1)
  }

  /** The phases of a text: those inside the block, or else those read from the section. */
  function PhasesOf(text: string, section: seq<Phase>): seq<Phase> {
    match Parse(text)
    case Rejected(_) => []
    case Accepted(doc) => if SLUG in BlockMap(doc) then Scan(BlockMap(doc)[SLUG].payload, true) else section
  }

  /** One repair. `section` is what the section parser reads from a text without a block. */
  function Repair(text: string, section: seq<Phase>): ReplaceResult {
    Wrap(text, Payload(PhasesOf(text, section)))
  }

  lemma SlugIsValid()
    ensures ValidSlug(SLUG)
  {
  }

  /** A text whose block holds printed phases is left alone by a repair. */
  lemma RepairedIsFixed(text: string, k: nat, phases: seq<Phase>, section: seq<Phase>)
    requires Parse(text).Accepted? && k < |Parse(text).doc| && GoodTitles(phases)
    requires Parse(text).doc[k] == Block(SLUG, Bullets(phases))
    ensures Repair(text, section) == Replaced(text)
  {
    var doc := Parse(text).doc;
    var lines := Lines(text, NL);
    FlatOfLines(text, NL);
    GrammarExactly(lines);
    SlugIsValid();
    hide Lines, ParseLines, BlockMap, Slugs, Print, Distinct, Flat, Scan, Bullets, Render, Doc, GoodTitles, ValidSlug, Clean;
    BlockAt(doc, k);
    SlugsContain(doc, k);
    PrintThenParse(phases);
    PayloadIsCanonical(phases);
    PutAround(doc, k, Bullets(phases));
    assert Put(doc, SLUG, Bullets(phases)) == doc;
  }

  /** After one repair of a text that has the block, a second repair changes nothing. */
  lemma SecondRepairChangesNothing(text: string, section: seq<Phase>, section': seq<Phase>)
    requires Parse(text).Accepted? && SLUG in Slugs(Parse(text).doc) && GoodTitles(PhasesOf(text, section))
    ensures Repair(text, section).Replaced?
    ensures Repair(Repair(text, section).text, section') == Repair(text, section)
  {
    var phases := PhasesOf(text, section);
    var doc := Parse(text).doc;
    SlugIsValid();
    PayloadIsCanonical(phases);
    hide Parse, Slugs, Replace, Bullets, PhasesOf, GoodTitles, AllPlain, ValidSlug, CanonicalLines;
    ReplaceRoundTrip(text, SLUG, Payload(phases));
    var k := FindSlug(doc, SLUG);
    var text' := Repair(text, section).text;
    RepairedIsFixed(text', k, phases, section');
  }

  // ------------------------------------------------------------- putting a new block in

  /** In a document of the grammar a BEGIN line starts a block. */
  lemma {:induction false} BeginStartsBlock(doc: seq<Item>, n: nat) returns (k: nat)
    requires Clean(doc) && n < |Print(doc)| && BeginOf(Print(doc)[n]).Some?
    ensures k < |doc| && doc[k].Block? && Print(doc[..k]) == Print(doc)[..n]
  {
    var item, rest := doc[0], doc[1..];
    var size := |ItemLines(item)|;
    assert item in doc;
    hide ItemLines, BeginOf, PlainItem;
    assert Print(doc) == ItemLines(item) + Print(rest);
    if n < size {
      OnlyFirst(item, n);
      k := 0;
      assert doc[..0] == [] && Print(doc)[..0] == [];
    } else {
      var m := BeginStartsBlock(rest, n - size);
      k := m + 1;
      hide Print, Clean;
      PrintShift(item, rest, m);
      HeadAndRest(doc);
      PrefixOfJoin(ItemLines(item), Print(rest), n);
    }
  }

  lemma HeadAndRest<T>(s: seq<T>)
    requires s != []
    ensures s == [s[0]] + s[1..]
  {
  }

  lemma PrefixOfJoin(a: seq<string>, b: seq<string>, n: nat)
    requires |a| <= n <= |a| + |b|
    ensures (a + b)[..n] == a + b[..n - |a|]
  {
  }

  lemma PrintShift(item: Item, rest: seq<Item>, m: nat)
    requires m <= |rest|
    ensures Print(([item] + rest)[..m + 1]) == ItemLines(item) + Print(rest[..m])
  {
    hide ItemLines;
    var doc := [item] + rest[..m];
    assert ([item] + rest)[..m + 1] == doc;
    assert doc[1..] == rest[..m] && doc[0] == item;
  }

  /** Inside an item of the grammar no line after the first is a BEGIN line. */
  lemma InsideItem(item: Item, n: nat)
    requires PlainItem(item) && 0 < n < |ItemLines(item)|
    ensures item.Block? && BeginOf(ItemLines(item)[n]).None?
  {
    if item.Block? {
      EndLines(item.slug);
      PiecesOfFour(BeginLine(item.slug), item.payload, EndLine(item.slug), []);
      hide BeginOf, EndOf, BeginLine, EndLine, ValidSlug;
      if n <= |item.payload| {
        assert ItemLines(item)[n] == item.payload[n - 1];
        assert item.payload[n - 1] in item.payload;
      }
    }
  }

  lemma OnlyFirst(item: Item, n: nat)
    requires PlainItem(item) && n < |ItemLines(item)| && BeginOf(ItemLines(item)[n]).Some?
    ensures item.Block? && n == 0
  {
    if n > 0 {
      InsideItem(item, n);
    } else {
      hide BeginOf;
    }
  }

  /** A flat block of plain lines between two groups of lines is accepted exactly when both groups are documents of the
      grammar on their own, with no slug in common. */
  lemma BlockBetween(pre: seq<string>, slug: string, payload: seq<string>, post: seq<string>)
    requires ValidSlug(slug) && AllPlain(payload)
    ensures
      ParseLines(pre + ItemLines(Block(slug, payload)) + post).Accepted? <==>
        Clean(Doc(pre)) && Clean(Doc(post)) && Distinct(Slugs(Doc(pre)) + [slug] + Slugs(Doc(post)))
    ensures
      ParseLines(pre + ItemLines(Block(slug, payload)) + post).Accepted? ==>
        ParseLines(pre + ItemLines(Block(slug, payload)) + post).doc == Doc(pre) + [Block(slug, payload)] + Doc(post)
  {
    var block := Block(slug, payload);
    var mid := ItemLines(block);
    var lines := pre + mid + post;
    GrammarExactly(lines);
    PrintOfDoc(pre);
    PrintOfDoc(post);
    hide Doc, Print, Slugs, Distinct, ParseLines, ItemLines, Clean, ValidSlug, AllPlain, BeginOf;
    if Clean(Doc(pre)) && Clean(Doc(post)) && Distinct(Slugs(Doc(pre)) + [slug] + Slugs(Doc(post))) {
      CleanAround(Doc(pre), block, Doc(post));
      PrintAround(Doc(pre), block, Doc(post));
      GrammarAccepts(Doc(pre) + [block] + Doc(post));
    }
    if ParseLines(lines).Accepted? {
      SplitDoc(pre, slug, payload, post, Doc(lines));
      PrintAround(Doc(pre), block, Doc(post));
    }
  }

  lemma CleanAround(a: seq<Item>, item: Item, b: seq<Item>)
    requires Clean(a) && Clean(b) && item.Block? && ValidSlug(item.slug) && AllPlain(item.payload)
    ensures Clean(a + [item] + b)
  {
    CleanJoin(a, item, b);
  }

  /** A document printed as some lines, a flat block, and more lines is itself in those three parts. */
  lemma SplitDoc(pre: seq<string>, slug: string, payload: seq<string>, post: seq<string>, doc: seq<Item>)
    requires ValidSlug(slug) && AllPlain(payload) && Clean(doc)
    requires Print(doc) == pre + ItemLines(Block(slug, payload)) + post
    ensures Clean(Doc(pre)) && Clean(Doc(post)) && doc == Doc(pre) + [Block(slug, payload)] + Doc(post)
  {
    var block := Block(slug, payload);
    hide *;
    var k := BlockStartsAt(pre, slug, payload, post, doc);
    var a, item, b := doc[..k], doc[k], doc[k + 1..];
    ThreeParts(doc, k);
    PrintAround(a, item, b);
    CleanJoin(a, item, b);
    ConcatAssociates(pre, ItemLines(item), Print(b));
    ConcatAssociates(pre, ItemLines(block), post);
    SameTail(pre, ItemLines(item) + Print(b), ItemLines(block) + post);
    PlainBlock(slug, payload);
    SameBlock(item, block, Print(b), post);
    DocOfPrint(a);
    DocOfPrint(b);
  }

  lemma PlainBlock(slug: string, payload: seq<string>)
    requires ValidSlug(slug) && AllPlain(payload)
    ensures PlainItem(Block(slug, payload))
  {
  }

  lemma BlockStartsAt(pre: seq<string>, slug: string, payload: seq<string>, post: seq<string>, doc: seq<Item>)
    returns (k: nat)
    requires ValidSlug(slug) && Clean(doc)
    requires Print(doc) == pre + ItemLines(Block(slug, payload)) + post
    ensures k < |doc| && doc[k].Block? && Print(doc[..k]) == pre
  {
    var lines := Print(doc);
    BeginLines(slug);
    hide Print, ValidSlug, BeginOf, BeginLine, Clean;
    assert lines[|pre|] == BeginLine(slug);
    k := BeginStartsBlock(doc, |pre|);
    hide ItemLines;
    ConcatAssociates(pre, ItemLines(Block(slug, payload)), post);
    FirstPart(pre, ItemLines(Block(slug, payload)) + post, lines);
  }

  lemma ThreeParts(doc: seq<Item>, k: nat)
    requires k < |doc|
    ensures doc == doc[..k] + [doc[k]] + doc[k + 1..]
  {
  }

  lemma FirstPart(a: seq<string>, b: seq<string>, c: seq<string>)
    requires c == a + b
    ensures c[..|a|] == a
  {
  }

  lemma SameTail(a: seq<string>, b: seq<string>, c: seq<string>)
    requires a + b == a + c
    ensures b == c
  {
    assert (a + b)[|a|..] == b && (a + c)[|a|..] == c;
  }

  /** Two flat blocks at the beginning of the same lines are the same block. */
  lemma SameBlock(x: Item, y: Item, p: seq<string>, q: seq<string>)
    requires x.Block? && y.Block? && PlainItem(x) && PlainItem(y) && ItemLines(x) + p == ItemLines(y) + q
    ensures x == y && p == q
  {
    hide ItemLines, Opens, BeginOf, NextEnd, ValidSlug, AllPlain;
    PrintedBlockOpens(x.slug, x.payload, p);
    PrintedBlockOpens(y.slug, y.payload, q);
  }

  lemma RenderedLines(slug: string, payload: string)
    requires ValidSlug(slug)
    ensures Lines(Render(slug, payload), NL) == ItemLines(Block(slug, CanonicalLines(payload)))
    ensures WholeLines(Render(slug, payload), NL)
  {
    CanonicalIsCut(payload);
    FlatOfBlock(slug, payload);
    BlockLinesAreCut(slug, CanonicalLines(payload));
    LinesOfFlat(ItemLines(Block(slug, CanonicalLines(payload))), NL);
  }

  lemma LinesAround(pre: string, slug: string, payload: string, post: string)
    requires ValidSlug(slug) && WholeLines(pre, NL)
    ensures Lines(pre + Render(slug, payload) + post, NL)
         == Lines(pre, NL) + ItemLines(Block(slug, CanonicalLines(payload))) + Lines(post, NL)
  {
    RenderedLines(slug, payload);
    hide Lines, Render, ItemLines, CanonicalLines, ValidSlug;
    LinesJoin(pre, Render(slug, payload), NL);
    WholeJoin(pre, Render(slug, payload), NL);
    LinesJoin(pre + Render(slug, payload), post, NL);
  }

  lemma ParseOfDoc(text: string)
    ensures Parse(text).Accepted? <==> Clean(Doc(Lines(text, NL))) && Distinct(Slugs(Doc(Lines(text, NL))))
    ensures Clean(Doc(Lines(text, NL))) ==> Slugs(Doc(Lines(text, NL))) == BeginSlugs(Lines(text, NL))
  {
    var lines := Lines(text, NL);
    GrammarExactly(lines);
    PrintOfDoc(lines);
    DocCounts(Doc(lines));
  }

  /** Slugs that stay apart in the whole stay apart in its two ends. */
  lemma EndsApart(a: seq<string>, m: seq<string>, b: seq<string>, slug: string)
    requires Distinct(a + m + b) && slug !in a + m + b
    ensures Distinct(a + [slug] + b) && Distinct(a) && Distinct(b)
  {
    hide Distinct;
    ConcatAssociates(a, m, b);
    DistinctPrefix(a, m + b);
    DistinctTail(a + m, b);
    forall s | s in a && s in b ensures false {
      assert s in a + m;
      DistinctApart(a + m, b, s, s);
    }
    OneIsDistinct(slug);
    assert slug !in a && slug !in b;
    DistinctJoin(a, [slug]);
    DistinctJoin(a + [slug], b);
  }

  lemma OneIsDistinct(slug: string)
    ensures Distinct([slug])
  {
  }

  lemma DistinctJoin(a: seq<string>, b: seq<string>)
    requires Distinct(a) && Distinct(b) && forall s :: s in a ==> s !in b
    ensures Distinct(a + b)
  {
    var all := a + b;
    forall i, j | 0 <= i < j < |all| ensures all[i] != all[j] {
      if i < |a| && j >= |a| {
        assert all[i] in a && all[j] == b[j - |a|];
      } else if i >= |a| {
        assert all[i] == b[i - |a|] && all[j] == b[j - |a|];
      }
    }
  }

  /** The marker lines of the two ends of a text are marker lines of the text. */
  lemma SlugsOfEnds(pre: string, mid: string, post: string) returns (m: seq<string>)
    requires WholeLines(pre, NL) && (post == "" || post[0] == '\n')
    ensures BeginSlugs(Lines(pre + mid + post, NL)) == BeginSlugs(Lines(pre, NL)) + m + BeginSlugs(Lines(post, NL))
  {
    hide Lines, BeginSlugs;
    assert pre + mid + post == pre + (mid + post);
    LinesJoin(pre, mid + post, NL);
    SlugsJoin(Lines(pre, NL), Lines(mid + post, NL));
    if post == "" {
      EmptyLines();
      assert mid + post == mid;
      m := BeginSlugs(Lines(mid, NL));
      ConcatAssociates(BeginSlugs(Lines(pre, NL)), m, []);
    } else {
      var rest := post[1..];
      assert post == "\n" + rest && mid + post == (mid + "\n") + rest;
      LinesJoin("\n", rest, NL);
      LinesJoin(mid + "\n", rest, NL);
      EmptyLines();
      SlugsJoin(["\n"], Lines(rest, NL));
      SlugsJoin(Lines(mid + "\n", NL), Lines(rest, NL));
      m := BeginSlugs(Lines(mid + "\n", NL));
      assert BeginSlugs(Lines(post, NL)) == BeginSlugs(Lines(rest, NL));
      ConcatAssociates(BeginSlugs(Lines(pre, NL)), m, BeginSlugs(Lines(rest, NL)));
    }
  }

  lemma EmptyLines()
    ensures Lines("", NL) == [] && BeginSlugs([]) == [] && Lines("\n", NL) == ["\n"] && BeginSlugs(["\n"]) == []
    ensures Plain("\n")
  {
    FlatOne("\n");
    LinesOfFlat(["\n"], NL);
    assert Strip("\n") == "";
    SlugsOfOne("\n");
  }

  /** Where the section is cut out whole, the wrapped text is accepted exactly when what is before and what is after are
      each accepted: the section cuts through no other block. */
  lemma WholeCutAccepted(pre: string, mid: string, post: string, payload: string)
    requires WholeLines(pre, NL) && (post == "" || post[0] == '\n')
    requires Parse(pre + mid + post).Accepted? && SLUG !in Slugs(Parse(pre + mid + post).doc)
    requires AllPlain(CanonicalLines(payload))
    ensures Parse(pre + Render(SLUG, payload) + post).Accepted? <==> Parse(pre).Accepted? && Parse(post).Accepted?
    ensures Parse(pre + Render(SLUG, payload) + post).Accepted? ==>
              var doc := Parse(pre + Render(SLUG, payload) + post).doc;
              exists k :: 0 <= k < |doc| && doc[k] == Block(SLUG, CanonicalLines(payload))
  {
    SlugIsValid();
    var text := pre + mid + post;
    ParseOfDoc(text);
    ParseOfDoc(pre);
    ParseOfDoc(post);
    GrammarExactly(Lines(text, NL));
    hide Lines, BeginSlugs, ParseLines, Doc, Clean, Distinct, Slugs, Render, CanonicalLines, ItemLines, ValidSlug, AllPlain;
    var m := SlugsOfEnds(pre, mid, post);
    LinesAround(pre, SLUG, payload, post);
    BlockBetween(Lines(pre, NL), SLUG, CanonicalLines(payload), Lines(post, NL));
    EndsApart(BeginSlugs(Lines(pre, NL)), m, BeginSlugs(Lines(post, NL)), SLUG);
    if Parse(pre + Render(SLUG, payload) + post).Accepted? {
      AroundDistinct(Slugs(Doc(Lines(pre, NL))), Slugs(Doc(Lines(post, NL))));
      InMiddle(Doc(Lines(pre, NL)), Block(SLUG, CanonicalLines(payload)), Doc(Lines(post, NL)));
    }
  }

  lemma AroundDistinct(a: seq<string>, b: seq<string>)
    requires Distinct(a + [SLUG] + b)
    ensures Distinct(a) && Distinct(b)
  {
    var all := a + [SLUG] + b;
    assert forall i :: 0 <= i < |a| ==> all[i] == a[i];
    assert forall i :: 0 <= i < |b| ==> all[|a| + 1 + i] == b[i];
  }

  lemma InMiddle(a: seq<Item>, item: Item, b: seq<Item>)
    ensures exists k :: 0 <= k < |a + [item] + b| && (a + [item] + b)[k] == item
  {
    assert (a + [item] + b)[|a|] == item;
  }

  lemma {:induction false} NotFound(text: string, c: char)
    requires Find(text, [c]).None?
    ensures c !in text
  {
    if text != "" {
      assert [c] <= text <==> text[0] == c;
      NotFound(text[1..], c);
      assert text == [text[0]] + text[1..];
    }
  }

  /** The last line of a text that does not end with a newline. */
  lemma OpenLastLine(text: string)
    requires !WholeLines(text, NL)
    ensures
      var lines := Lines(text, NL);
      lines != []
      && var front, last := lines[..|lines| - 1], lines[|lines| - 1];
         && text == Flat(front) + last && last != "" && '\n' !in last
         && WholeLines(Flat(front), NL) && Lines(Flat(front), NL) == front
  {
    var lines := Lines(text, NL);
    FlatOfLines(text, NL);
    OpenCut(lines);
    var front := lines[..|lines| - 1];
    hide Lines, Flat, Cut, IsLine;
    LinesOfFlat(front, NL);
  }

  lemma OpenCut(lines: seq<string>)
    requires Cut(lines, NL) && !WholeLines(Flat(lines), NL)
    ensures
      lines != []
      && var front, last := lines[..|lines| - 1], lines[|lines| - 1];
         && Flat(lines) == Flat(front) + last && last != "" && '\n' !in last
         && Cut(front, NL) && WholeLines(Flat(front), NL)
  {
    LastLine(lines);
    var front, last := lines[..|lines| - 1], lines[|lines| - 1];
    assert last[|last| - 1] == Flat(lines)[|Flat(lines)| - 1];
    assert '\n' !in last;
    forall k | 0 <= k < |front| ensures IsLine(front[k], NL) && Ended(front[k], NL) {
      assert front[k] == lines[k];
    }
    hide Flat, IsLine;
    if front != [] {
      LastLine(front);
    }
  }

  lemma MarkersHaveNoHash(text: string, pre: string, post: string)
    requires '#' !in pre && '#' !in post
    ensures SlugIn(text, pre, post).Some? ==> '#' !in text
  {
    if SlugIn(text, pre, post).Some? {
      SlugInMeans(text, pre, post);
    }
  }

  lemma NoHashInMarkers()
    ensures '#' !in BEGIN_PRE && '#' !in BEGIN_POST && '#' !in END_PRE && '#' !in END_POST
  {
  }

  /** Glued to the end of an unfinished heading line, the BEGIN line is no marker, and the text is refused. */
  lemma GluedIsRefused(text: string, payload: string)
    requires Parse(text).Accepted? && SLUG !in Slugs(Parse(text).doc) && !WholeLines(text, NL)
    requires '#' in Lines(text, NL)[|Lines(text, NL)| - 1]
    requires AllPlain(CanonicalLines(payload))
    ensures !Parse(text + Render(SLUG, payload)).Accepted?
  {
    SlugIsValid();
    hide Lines, Render, CanonicalLines, Doc, Print, Distinct, Clean, Slugs, BeginSlugs, EndSlugs, ParseLines, ValidSlug,
      AllPlain, Flat;
    OpenLastLine(text);
    ParseOfDoc(text);
    var all := Lines(text, NL);
    var front, last := all[..|all| - 1], all[|all| - 1];
    GluedSlugs(front, last, payload);
    SlugsJoin(front, [last]);
    assert all == front + [last];
    AcceptedSlugs(text);
    AcceptedSlugs(text + Render(SLUG, payload));
  }

  lemma AcceptedSlugs(text: string)
    ensures Parse(text).Accepted? ==>
              && BeginSlugs(Lines(text, NL)) == EndSlugs(Lines(text, NL)) == Slugs(Parse(text).doc)
  {
    var lines := Lines(text, NL);
    GrammarExactly(lines);
    PrintOfDoc(lines);
    hide Lines, Doc, Print, Clean, Slugs, BeginSlugs, EndSlugs, ParseLines, Distinct;
    DocCounts(Doc(lines));
  }

  lemma GluedText(front: seq<string>, last: string, payload: string)
    requires WholeLines(Flat(front), NL) && Lines(Flat(front), NL) == front
    requires last != "" && '\n' !in last && '#' in last && ValidSlug(SLUG)
    ensures Lines(Flat(front) + last + Render(SLUG, payload), NL)
         == front + ([last + BeginLine(SLUG)] + CanonicalLines(payload) + [EndLine(SLUG)])
  {
    var tail := [last + BeginLine(SLUG)] + CanonicalLines(payload) + [EndLine(SLUG)];
    hide *;
    GluedTail(last, payload);
    ConcatText(Flat(front), last, Render(SLUG, payload));
    LinesJoin(Flat(front), Flat(tail), NL);
    LinesOfFlat(tail, NL);
  }

  lemma ConcatText(a: string, b: string, c: string)
    ensures a + b + c == a + (b + c)
  {
  }

  lemma GluedTail(last: string, payload: string)
    requires last != "" && '\n' !in last && '#' in last && ValidSlug(SLUG)
    ensures
      var tail := [last + BeginLine(SLUG)] + CanonicalLines(payload) + [EndLine(SLUG)];
      Cut(tail, NL) && Flat(tail) == last + Render(SLUG, payload)
  {
    CanonicalIsCut(payload);
    MarkerLinesAreLines(SLUG);
    GluedLine(last);
    hide *;
    ThreeCut(last + BeginLine(SLUG), CanonicalLines(payload), EndLine(SLUG));
    GluedFlat(last, payload);
  }

  lemma ThreeCut(x: string, rest: seq<string>, y: string)
    requires IsLine(x, NL) && Ended(x, NL) && IsLine(y, NL) && Ended(y, NL)
    requires Cut(rest, NL) && AllEnded(rest, NL)
    ensures Cut([x] + rest + [y], NL)
  {
    hide IsLine, Ended;
    CutJoin([x], rest, NL);
    CutJoin([x] + rest, [y], NL);
  }

  lemma GluedFlat(last: string, payload: string)
    ensures Flat([last + BeginLine(SLUG)] + CanonicalLines(payload) + [EndLine(SLUG)]) == last + Render(SLUG, payload)
  {
    var glued, rest := last + BeginLine(SLUG), CanonicalLines(payload);
    hide BeginLine, EndLine, CanonicalLines, Flat;
    FlatAround([glued], rest, [EndLine(SLUG)]);
    FlatOne(glued);
    FlatOne(EndLine(SLUG));
    GluedConcat(last, BeginLine(SLUG), Canonical(payload), EndLine(SLUG));
  }

  lemma GluedConcat(a: string, b: string, c: string, d: string)
    ensures a + b + c + d == a + (b + c + d)
  {
  }

  lemma GluedSlugs(front: seq<string>, last: string, payload: string)
    requires WholeLines(Flat(front), NL) && Lines(Flat(front), NL) == front
    requires last != "" && '\n' !in last && '#' in last && ValidSlug(SLUG) && AllPlain(CanonicalLines(payload))
    ensures
      var lines := Lines(Flat(front) + last + Render(SLUG, payload), NL);
      BeginSlugs(lines) == BeginSlugs(front) && SLUG in EndSlugs(lines)
  {
    GluedText(front, last, payload);
    GluedLine(last);
    EndLines(SLUG);
    NoSlugsExactly(CanonicalLines(payload));
    hide Lines, BeginLine, EndLine, BeginSlugs, EndSlugs, BeginOf, EndOf, IsLine, CanonicalLines, AllPlain, ValidSlug, Flat;
    TailSlugs(front, last + BeginLine(SLUG), CanonicalLines(payload), EndLine(SLUG));
  }

  lemma TailSlugs(front: seq<string>, glued: string, rest: seq<string>, end: string)
    requires BeginOf(glued) == None && BeginSlugs(rest) == [] && EndOf(end) == Some(SLUG) && BeginOf(end) == None
    ensures BeginSlugs(front + ([glued] + rest + [end])) == BeginSlugs(front)
    ensures SLUG in EndSlugs(front + ([glued] + rest + [end]))
  {
    hide BeginSlugs, EndSlugs, BeginOf, EndOf;
    SlugsJoin(front, [glued] + rest + [end]);
    SlugsJoin([glued] + rest, [end]);
    SlugsJoin([glued], rest);
    SlugsOfOne(glued);
    SlugsOfOne(end);
    assert BeginSlugs(front) + [] == BeginSlugs(front);
    assert EndSlugs([end]) == [SLUG];
  }

  lemma GluedLine(last: string)
    requires '\n' !in last && '#' in last && ValidSlug(SLUG)
    ensures
      var glued := last + BeginLine(SLUG);
      IsLine(glued, NL) && Ended(glued, NL) && BeginOf(glued) == None
  {
    var body := last + (BEGIN_PRE + SLUG + BEGIN_POST);
    assert last + BeginLine(SLUG) == body + "\n";
    assert Printable(SLUG);
    MarkerTextIsPlainAscii();
    PrintableJoin(BEGIN_PRE, SLUG);
    PrintableJoin(BEGIN_PRE + SLUG, BEGIN_POST);
    NoHashInMarkers();
    assert '\n' !in BEGIN_PRE + SLUG + BEGIN_POST by {
      PrintableHasNoNewline(BEGIN_PRE + SLUG + BEGIN_POST);
    }
    hide Printable, ValidSlug, BeginLine;
    StripOfTerminated(body);
    MarkersHaveNoHash(body, BEGIN_PRE, BEGIN_POST);
  }

  lemma PrintableHasNoNewline(s: string)
    requires Printable(s)
    ensures '\n' !in s
  {
  }

  // ------------------------------------------------------------ the first repair of a text

  /** What the heading's place looks like. */
  lemma HeadingPlace(text: string, heading: nat)
    requires Find(text, HEADING) == Some(heading)
    ensures
      var (pre, post) := Around(text);
      && (post == "" || post[0] == '\n')
      && |pre| + |post| <= |text| && text == pre + text[|pre|..|text| - |post|] + post
      && (!WholeLines(pre, NL) ==> pre == text && post == "" && '#' in Lines(text, NL)[|Lines(text, NL)| - 1])
  {
    hide Lines, Find;
    HashFirst();
    var (from, end) := Section(text, heading);
    CutText(text, from, end);
    SectionStart(text, heading);
    SectionEnd(text, heading);
    if !WholeLines(text[..from], NL) {
      assert text[..|text|] == text;
      HeadingInLastLine(text, heading);
    }
  }

  lemma HashFirst()
    ensures HEADING != "" && HEADING[0] == '#' && NEXT_HEADING != "" && NEXT_HEADING[0] == '\n'
  {
  }

  lemma CutText(text: string, from: nat, end: nat)
    requires from <= end <= |text|
    ensures text == text[..from] + text[|text[..from]|..|text| - |text[end..]|] + text[end..]
    ensures |text[..from]| + |text[end..]| <= |text|
  {
  }

  lemma SectionStart(text: string, heading: nat)
    requires heading <= |text|
    ensures
      var from := Section(text, heading).0;
      !WholeLines(text[..from], NL) ==>
        from == |text| && Section(text, heading).1 == |text| && Find(text[heading..], "\n").None?
  {
    hide Find;
    var newline := FindFrom(text, "\n", heading);
    if newline.Some? {
      assert text[newline.value] == '\n';
    }
  }

  lemma SectionEnd(text: string, heading: nat)
    requires heading <= |text|
    ensures var end := Section(text, heading).1; text[end..] == "" || text[end..][0] == '\n'
  {
    hide Find;
    HashFirst();
  }

  lemma HeadingInLastLine(text: string, heading: nat)
    requires heading < |text| && text[heading] == '#' && Find(text[heading..], "\n").None? && !WholeLines(text, NL)
    ensures Lines(text, NL) != [] && '#' in Lines(text, NL)[|Lines(text, NL)| - 1]
  {
    OpenLastLine(text);
    NotFound(text[heading..], '\n');
    var lines := Lines(text, NL);
    hide Lines, Flat;
    var front, last := lines[..|lines| - 1], lines[|lines| - 1];
    var n := |Flat(front)|;
    assert n > 0 ==> text[n - 1] == '\n';
    assert forall i :: heading <= i < |text| ==> text[i] in text[heading..];
    assert last[heading - n] == text[heading];
  }

  /** A first repair that puts a new block in place of a section leaves a readable text exactly when the heading's line
      is finished and the section cuts through no other block. */
  lemma FirstRepairReadable(text: string, phases: seq<Phase>)
    requires Parse(text).Accepted? && SLUG !in Slugs(Parse(text).doc) && Find(text, HEADING).Some?
    requires GoodTitles(phases)
    ensures
      var (pre, post) := Around(text);
      && Repair(text, phases).Replaced?
      && (Parse(Repair(text, phases).text).Accepted? <==>
            WholeLines(pre, NL) && Parse(pre).Accepted? && Parse(post).Accepted?)
  {
    var (pre, post) := Around(text);
    FirstRepairIs(text, phases);
    PayloadIsCanonical(phases);
    HeadingPlace(text, Find(text, HEADING).value);
    hide *;
    if WholeLines(pre, NL) {
      WholeCutAccepted(pre, text[|pre|..|text| - |post|], post, Payload(phases));
    } else {
      GluedIsRefused(text, Payload(phases));
      NothingAfter(text + Render(SLUG, Payload(phases)));
    }
  }

  lemma NothingAfter(text: string)
    ensures text + "" == text
  {
  }

  lemma FirstRepairIs(text: string, section: seq<Phase>)
    requires Parse(text).Accepted? && SLUG !in Slugs(Parse(text).doc)
    ensures Repair(text, section)
         == Replaced(Around(text).0 + Render(SLUG, Payload(section)) + Around(text).1)
  {
    BlockMapKeys(Parse(text).doc);
    hide Around, Render, Payload, Scan, BlockMap, Slugs, Lines, ParseLines;
  }

  /** When the first repair leaves a readable text, a second repair changes nothing. */
  lemma RepairIsIdempotent(text: string, section: seq<Phase>, section': seq<Phase>)
    requires Parse(text).Accepted? && SLUG !in Slugs(Parse(text).doc) && Find(text, HEADING).Some?
    requires GoodTitles(section) && Parse(Repair(text, section).text).Accepted?
    ensures Repair(Repair(text, section).text, section') == Repair(text, section)
  {
    var (pre, post) := Around(text);
    FirstRepairReadable(text, section);
    FirstRepairIs(text, section);
    PayloadIsCanonical(section);
    HeadingPlace(text, Find(text, HEADING).value);
    hide Parse, Around, Slugs, Render, Payload, GoodTitles, CanonicalLines, AllPlain, Lines, Repair, Find, Bullets;
    WholeCutAccepted(pre, text[|pre|..|text| - |post|], post, Payload(section));
    var r := Repair(text, section).text;
    var k :| 0 <= k < |Parse(r).doc| && Parse(r).doc[k] == Block(SLUG, CanonicalLines(Payload(section)));
    RepairedIsFixed(r, k, section, section');
  }

  /** Finishing an open last line and adding an empty one keeps a text of the grammar in it, with the same slugs. */
  lemma FinishedTextIsAccepted(text: string)
    requires Parse(text).Accepted?
    ensures
      var pre := Finished(text);
      && WholeLines(pre, NL) && Clean(Doc(Lines(pre, NL))) && Slugs(Doc(Lines(pre, NL))) == Slugs(Parse(text).doc)
  {
    var doc := Parse(text).doc;
    GrammarExactly(Lines(text, NL));
    hide Lines, Doc, Clean, Slugs, Print, ParseLines;
    if text != "" && text[|text| - 1] == '\n' {
      FinishedWhole(text, doc);
    } else if text == "" {
      FinishedEmpty(doc);
    } else {
      FinishedOpen(text, doc);
    }
  }

  lemma FinishedWhole(text: string, doc: seq<Item>)
    requires Clean(doc) && Print(doc) == Lines(text, NL) && WholeLines(text, NL)
    ensures Clean(Doc(Lines(text + "\n", NL))) && Slugs(Doc(Lines(text + "\n", NL))) == Slugs(doc)
  {
    EmptyLines();
    hide Lines, Doc, Clean, Slugs, Print, Plain;
    LinesJoin(text, "\n", NL);
    MoreItems(doc, [Line("\n")], text + "\n");
  }

  lemma FinishedEmpty(doc: seq<Item>)
    requires Print(doc) == Lines("", NL)
    ensures Clean(Doc(Lines("\n\n", NL))) && Slugs(Doc(Lines("\n\n", NL))) == Slugs(doc)
  {
    EmptyLines();
    NoLines(doc);
    hide Lines, Doc, Clean, Slugs, Print, Plain;
    assert "\n" + "\n" == "\n\n";
    LinesJoin("\n", "\n", NL);
    assert [] + ["\n", "\n"] == ["\n"] + ["\n"];
    EmptyDocument();
    MoreItems([], [Line("\n"), Line("\n")], "\n\n");
  }

  lemma FinishedOpen(text: string, doc: seq<Item>)
    requires Clean(doc) && Print(doc) == Lines(text, NL) && !WholeLines(text, NL)
    ensures Clean(Doc(Lines(text + "\n" + "\n", NL))) && Slugs(Doc(Lines(text + "\n" + "\n", NL))) == Slugs(doc)
  {
    OpenLastLine(text);
    hide *;
    var lines := Lines(text, NL);
    var front, last := lines[..|lines| - 1], lines[|lines| - 1];
    SplitLast(lines);
    var a := LastItemIsOpen(doc, front, last);
    FinishedLines(text, front, last);
    FinishedLine(last);
    TwoMore(a, last + "\n", text + "\n" + "\n");
  }

  lemma SplitLast<T>(s: seq<T>)
    requires s != []
    ensures s == s[..|s| - 1] + [s[|s| - 1]]
  {
  }

  lemma TwoMore(a: seq<Item>, x: string, text: string)
    requires Clean(a) && Plain(x) && Lines(text, NL) == Print(a) + [x, "\n"]
    ensures Clean(Doc(Lines(text, NL))) && Slugs(Doc(Lines(text, NL))) == Slugs(a)
  {
    EmptyLines();
    hide *;
    MoreItems(a, [Line(x), Line("\n")], text);
  }

  lemma FinishedLines(text: string, front: seq<string>, last: string)
    requires text == Flat(front) + last && Lines(Flat(front), NL) == front && WholeLines(Flat(front), NL)
    requires last != "" && '\n' !in last
    ensures Lines(text + "\n" + "\n", NL) == front + [last + "\n", "\n"] && Strip(last + "\n") == last
  {
    EmptyLines();
    StripOfTerminated(last);
    LinesOfOne(last + "\n");
    hide Lines, Flat, IsLine, Strip;
    ConcatText(Flat(front), last, "\n");
    LinesJoin(Flat(front), last + "\n", NL);
    LinesJoin(text + "\n", "\n", NL);
    assert front + [last + "\n"] + ["\n"] == front + [last + "\n", "\n"];
  }

  lemma LinesOfOne(line: string)
    requires IsLine(line, NL) && Ended(line, NL)
    ensures Lines(line, NL) == [line]
  {
    FlatOne(line);
    LinesOfFlat([line], NL);
  }

  lemma FinishedLine(last: string)
    requires '\n' !in last && Strip(last + "\n") == last
    ensures Plain(last) ==> Plain(last + "\n")
  {
    assert Strip(last) == last;
  }

  lemma NoLines(doc: seq<Item>)
    requires Print(doc) == []
    ensures doc == [] && Slugs([]) == []
  {
  }

  /** Two plain lines, or one, after a document of the grammar. */
  lemma MoreItems(doc: seq<Item>, more: seq<Item>, text: string)
    requires Clean(doc) && 1 <= |more| <= 2 && forall item :: item in more ==> item.Line? && Plain(item.text)
    requires Lines(text, NL) == Print(doc) + (if |more| == 1 then [more[0].text] else [more[0].text, more[1].text])
    ensures Clean(Doc(Lines(text, NL))) && Slugs(Doc(Lines(text, NL))) == Slugs(doc)
  {
    var all := doc + more;
    PlainLinesPrint(more);
    hide Lines, Doc, Slugs, Print, Plain;
    PrintJoin(doc, more);
    assert Slugs(doc) + [] == Slugs(doc);
    DocOfPrint(all);
  }

  lemma PlainLinesPrint(more: seq<Item>)
    requires 1 <= |more| <= 2 && forall item :: item in more ==> item.Line?
    ensures Print(more) == if |more| == 1 then [more[0].text] else [more[0].text, more[1].text]
    ensures Slugs(more) == []
  {
    if |more| == 2 {
      assert more[1..] == [more[1]];
      assert more[1..][1..] == [];
    } else {
      assert more[1..] == [];
    }
  }

  /** An open last line is an item of its own. */
  lemma LastItemIsOpen(doc: seq<Item>, front: seq<string>, last: string) returns (a: seq<Item>)
    requires Clean(doc) && Print(doc) == front + [last] && '\n' !in last
    ensures Clean(a) && Print(a) == front && Slugs(a) == Slugs(doc) && Plain(last)
  {
    NoItems();
    a := doc[..|doc| - 1];
    var item := doc[|doc| - 1];
    assert doc == a + [item] && item in doc;
    hide Print, Slugs, Plain;
    PrintJoin(a, [item]);
    PrintOne(item);
    CleanJoin(a, item, []);
    assert a + [item] + [] == doc;
    OpenItem(item, Print(a), front, last);
    assert Slugs(a) + [] == Slugs(a);
  }

  lemma NoItems()
    ensures Print([]) == []
  {
  }

  lemma OpenItem(item: Item, before: seq<string>, front: seq<string>, last: string)
    requires before + ItemLines(item) == front + [last] && '\n' !in last && PlainItem(item)
    ensures item == Line(last) && before == front && Plain(last)
  {
    LastOfItem(item);
    var lines := before + ItemLines(item);
    assert lines[|lines| - 1] == last == ItemLines(item)[|ItemLines(item)| - 1];
    hide Plain, EndLine, BeginLine;
    assert lines[..|lines| - 1] == front;
    assert lines[..|before|] == before;
  }

  lemma LastOfItem(item: Item)
    ensures ItemLines(item) != [] && (item.Line? ==> ItemLines(item) == [item.text])
    ensures item.Block? ==> '\n' in ItemLines(item)[|ItemLines(item)| - 1]
  {
    if item.Block? {
      assert EndLine(item.slug)[|EndLine(item.slug)| - 1] == '\n';
    }
  }

  /** Where an appended block is: after the items of the text, finished. */
  lemma AppendedBlock(text: string, section: seq<Phase>)
    requires Parse(text).Accepted? && SLUG !in Slugs(Parse(text).doc) && Find(text, HEADING).None?
    requires GoodTitles(section)
    ensures Repair(text, section).Replaced?
    ensures
      var after, k := Repair(text, section).text, |Doc(Lines(Around(text).0, NL))|;
      Parse(after).Accepted? && k < |Parse(after).doc| && Parse(after).doc[k] == Block(SLUG, Bullets(section))
  {
    var pre := Around(text).0;
    FirstRepairIs(text, section);
    PayloadIsCanonical(section);
    SlugIsValid();
    FinishedTextIsAccepted(text);
    GrammarExactly(Lines(text, NL));
    EmptyLines();
    EmptyDocument();
    hide Lines, BeginSlugs, ParseLines, Doc, Clean, Distinct, Slugs, Render, CanonicalLines, ItemLines, ValidSlug, AllPlain,
      Payload, Repair, Bullets, GoodTitles;
    LinesAround(pre, SLUG, Payload(section), "");
    BlockBetween(Lines(pre, NL), SLUG, CanonicalLines(Payload(section)), []);
    OneMoreSlug(Slugs(Doc(Lines(pre, NL))));
    var a := Doc(Lines(pre, NL));
    var block := Block(SLUG, CanonicalLines(Payload(section)));
    assert (a + [block] + [])[|a|] == block;
  }

  /** A first repair of a text without the heading always leaves a readable text, and a second changes nothing. */
  lemma AppendedRepair(text: string, section: seq<Phase>, section': seq<Phase>)
    requires Parse(text).Accepted? && SLUG !in Slugs(Parse(text).doc) && Find(text, HEADING).None?
    requires GoodTitles(section)
    ensures Repair(text, section).Replaced? && Parse(Repair(text, section).text).Accepted?
    ensures Repair(Repair(text, section).text, section') == Repair(text, section)
  {
    AppendedBlock(text, section);
    hide Parse, Repair, Doc, Lines, Around, Find, Bullets, GoodTitles, Slugs;
    RepairedIsFixed(Repair(text, section).text, |Doc(Lines(Around(text).0, NL))|, section, section');
  }

  lemma EmptyDocument()
    ensures Doc([]) == [] && Clean([]) && Slugs([]) == []
  {
  }

  lemma OneMoreSlug(slugs: seq<string>)
    requires Distinct(slugs) && SLUG !in slugs
    ensures Distinct(slugs + [SLUG] + [])
  {
    DistinctSnoc(slugs, SLUG);
    assert slugs + [SLUG] + [] == slugs + [SLUG];
  }

  /** The smallest such text: the bare heading without its newline. Repair accepts it once and refuses its own result. */
  lemma BareHeadingIsRefused(phases: seq<Phase>, section: seq<Phase>)
    requires GoodTitles(phases)
    ensures Parse(HEADING) == Accepted([Line(HEADING)])
    ensures Repair(HEADING, phases).Replaced? && Repair(Repair(HEADING, phases).text, section).Refused?
  {
    HashFirst();
    assert Printable(HEADING);
    OneLineText(HEADING);
    NoHashInMarkers();
    MarkersHaveNoHash(HEADING, BEGIN_PRE, BEGIN_POST);
    MarkersHaveNoHash(HEADING, END_PRE, END_POST);
    assert '#' in HEADING;
    BareDocument();
    assert Find(HEADING, HEADING) == Some(0);
    FirstRepairReadable(HEADING, phases);
    hide Lines, Render, GoodTitles, Repair, Parse;
    BareSection();
    var r := Repair(HEADING, phases).text;
    assert !Parse(r).Accepted?;
    RefusedIsRefused(r, section);
  }

  lemma BareDocument()
    requires Plain(HEADING)
    ensures ParseLines([HEADING]) == Accepted([Line(HEADING)]) && SLUG !in Slugs([Line(HEADING)])
  {
    var doc := [Line(HEADING)];
    assert doc[1..] == [];
    assert Print(doc) == [HEADING];
    GrammarAccepts(doc);
  }

  lemma BareSection()
    ensures !WholeLines(Around(HEADING).0, NL)
  {
    assert HEADING[|HEADING| - 1] == 's';
    assert Printable(HEADING);
    assert Find(HEADING, HEADING) == Some(0);
    NoNewlineFound(HEADING);
    assert HEADING[0..] == HEADING;
    assert HEADING[..|HEADING|] == HEADING;
  }

  lemma {:induction false} NoNewlineFound(text: string)
    requires Printable(text)
    ensures Find(text, "\n").None?
  {
    if text != "" {
      assert forall i :: 0 <= i < |text[1..]| ==> text[1..][i] == text[i + 1];
      NoNewlineFound(text[1..]);
      assert text[0] != '\n';
    }
  }

  lemma RefusedIsRefused(text: string, section: seq<Phase>)
    requires !Parse(text).Accepted?
    ensures Repair(text, section).Refused?
  {
  }
}
