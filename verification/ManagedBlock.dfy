/** Managed marker blocks: named regions of a text between a BEGIN line and the END line of the same slug. */
module ManagedBlock {
  import opened Prelude
  import opened TextLines

  const NL: set<char> := {'\n'}

  // ------------------------------------------------------------------ canonical text

  function TrimBlanks(line: string): string {
    if line != "" && line[|line| - 1] in {' ', '\t'} then TrimBlanks(line[..|line| - 1]) else line
  }

  function TrimAll(lines: seq<string>): seq<string> {
    seq(|lines|, i requires 0 <= i < |lines| => TrimBlanks(Strip(lines[i])))
  }

  function DropEmpty(lines: seq<string>): seq<string> {
    if lines != [] && lines[|lines| - 1] == "" then DropEmpty(lines[..|lines| - 1]) else lines
  }

  function Terminated(lines: seq<string>): seq<string> {
    seq(|lines|, i requires 0 <= i < |lines| => lines[i] + "\n")
  }

  /** The lines of the canonical form, each with its newline. */
  function CanonicalLines(text: string): seq<string> {
    Terminated(DropEmpty(TrimAll(Lines(Read(text), NL))))
  }

  function Canonical(text: string): string {
    Flat(CanonicalLines(text))
  }

  /** `split("\n")`: the lines without their newlines, and one empty piece after a final newline. */
  function Split(text: string): seq<string> {
    var lines := Lines(text, NL);
    seq(|lines|, i requires 0 <= i < |lines| => Strip(lines[i]))
    + (if text == "" || text[|text| - 1] == '\n' then [""] else [])
  }

  method Canonicalize(text: string) returns (canonical: string)
    ensures canonical == Canonical(text)
  {
    var normalized := Read(text);
    var pieces := Split(normalized);
    var lines := seq(|pieces|, i requires 0 <= i < |pieces| => TrimBlanks(pieces[i]));
    ghost var all := TrimAll(Lines(normalized, NL));
    assert DropEmpty(lines) == DropEmpty(all) by {
      if normalized == "" || normalized[|normalized| - 1] == '\n' {
        assert lines == all + [""];
        assert lines[..|lines| - 1] == all;
      } else {
        assert lines == all;
      }
    }
    while lines != [] && lines[|lines| - 1] == ""
      invariant DropEmpty(lines) == DropEmpty(all)
    {
      lines := lines[..|lines| - 1];
    }
    return Flat(Terminated(lines));
  }

  lemma {:induction false} TrimmedIsPlain(line: string)
    ensures TrimBlanks(TrimBlanks(line)) == TrimBlanks(line)
    ensures '\n' !in line ==> '\n' !in TrimBlanks(line)
  {
    if line != "" && line[|line| - 1] in {' ', '\t'} {
      TrimmedIsPlain(line[..|line| - 1]);
    }
  }

  lemma {:induction false} DropEmptyIsPrefix(lines: seq<string>)
    ensures DropEmpty(lines) <= lines
    ensures DropEmpty(lines) != [] ==> DropEmpty(lines)[|DropEmpty(lines)| - 1] != ""
    ensures DropEmpty(DropEmpty(lines)) == DropEmpty(lines)
  {
    if lines != [] && lines[|lines| - 1] == "" {
      DropEmptyIsPrefix(lines[..|lines| - 1]);
    }
  }

  lemma StripOfTerminated(line: string)
    requires '\n' !in line
    ensures Strip(line + "\n") == line && IsLine(line + "\n", NL) && Ended(line + "\n", NL)
  {
    var text := line + "\n";
    forall i | 0 <= i < |text| - 1 ensures text[i] !in NL {
      assert text[i] == line[i] && line[i] in line;
    }
  }

  lemma StripOfLine(line: string)
    requires IsLine(line, NL)
    ensures '\n' !in Strip(line)
    ensures Ended(line, NL) ==> line == Strip(line) + "\n"
  {
  }

  /** The canonical text is cut back into its canonical lines. */
  lemma CanonicalIsCut(text: string)
    ensures Cut(CanonicalLines(text), NL) && AllEnded(CanonicalLines(text), NL)
    ensures Lines(Canonical(text), NL) == CanonicalLines(text)
    ensures forall line :: line in CanonicalLines(text) ==> TrimBlanks(Strip(line)) == Strip(line)
  {
    var lines := Lines(Read(text), NL);
    FlatOfLines(Read(text), NL);
    var trimmed := TrimAll(lines);
    DropEmptyIsPrefix(trimmed);
    var kept := DropEmpty(trimmed);
    hide Lines, Read, DropEmpty, Flat;
    forall i | 0 <= i < |kept|
      ensures TrimBlanks(kept[i]) == kept[i]
      ensures Strip(kept[i] + "\n") == kept[i] && IsLine(kept[i] + "\n", NL) && Ended(kept[i] + "\n", NL)
    {
      assert kept[i] == trimmed[i] == TrimBlanks(Strip(lines[i]));
      TrimmedLine(lines[i]);
    }
    hide IsLine, Ended, Strip, TrimBlanks;
    LinesOfFlat(Terminated(kept), NL);
  }

  lemma TrimmedLine(line: string)
    requires IsLine(line, NL)
    ensures
      var body := TrimBlanks(Strip(line));
      && TrimBlanks(body) == body
      && Strip(body + "\n") == body && IsLine(body + "\n", NL) && Ended(body + "\n", NL)
  {
    StripOfLine(line);
    TrimmedIsPlain(Strip(line));
    hide IsLine, Ended, Strip, TrimBlanks;
    StripOfTerminated(TrimBlanks(Strip(line)));
  }

  lemma CanonicalHasNoReturn(text: string)
    ensures '\r' !in Canonical(text)
  {
    ReadHasNoReturn(text);
    var lines := Lines(Read(text), NL);
    FlatOfLines(Read(text), NL);
    LinesHaveNoReturn(lines);
    DropEmptyIsPrefix(TrimAll(lines));
    var kept := DropEmpty(TrimAll(lines));
    forall i | 0 <= i < |kept| ensures '\r' !in kept[i] + "\n" {
      assert kept[i] == TrimBlanks(Strip(lines[i]));
      TrimmedHasNoReturn(Strip(lines[i]));
    }
    FlatHasNoReturn(Terminated(kept));
  }

  lemma {:induction false} LinesHaveNoReturn(lines: seq<string>)
    requires '\r' !in Flat(lines)
    ensures forall i :: 0 <= i < |lines| ==> '\r' !in lines[i]
  {
    if lines != [] {
      assert forall c :: c in lines[0] ==> c in Flat(lines);
      assert forall c :: c in Flat(lines[1..]) ==> c in Flat(lines);
      LinesHaveNoReturn(lines[1..]);
      assert forall i :: 1 <= i < |lines| ==> lines[i] == lines[1..][i - 1];
    }
  }

  lemma {:induction false} FlatHasNoReturn(lines: seq<string>)
    requires forall i :: 0 <= i < |lines| ==> '\r' !in lines[i]
    ensures '\r' !in Flat(lines)
  {
    if lines != [] {
      FlatHasNoReturn(lines[1..]);
    }
  }

  lemma {:induction false} TrimmedHasNoReturn(line: string)
    requires '\r' !in line
    ensures '\r' !in TrimBlanks(line)
  {
    if line != "" && line[|line| - 1] in {' ', '\t'} {
      TrimmedHasNoReturn(line[..|line| - 1]);
    }
  }

  /** Canonicalizing twice is canonicalizing once. */
  lemma CanonicalIsStable(text: string)
    ensures CanonicalLines(Canonical(text)) == CanonicalLines(text)
    ensures Canonical(Canonical(text)) == Canonical(text)
  {
    CanonicalIsCut(text);
    CanonicalHasNoReturn(text);
    ReadIsIdentityExactly(Canonical(text));
    var lines := CanonicalLines(text);
    var trimmed := TrimAll(Lines(Read(text), NL));
    DropEmptyIsPrefix(trimmed);
    var kept := DropEmpty(trimmed);
    assert lines == Terminated(kept);
    forall i | 0 <= i < |kept| ensures TrimAll(lines)[i] == kept[i] {
      assert lines[i] == kept[i] + "\n" && lines[i] in lines;
    }
    assert TrimAll(lines) == kept;
  }

  // ------------------------------------------------------------------------ markers

  const BEGIN_PRE := "<!-- HARNESS:BEGIN managed:"
  const BEGIN_POST := " v1 -->"
  const END_PRE := "<!-- HARNESS:END managed:"
  const END_POST := " -->"

  predicate SlugChar(c: char) {
    'a' <= c <= 'z' || '0' <= c <= '9' || c == '-'
  }

  predicate ValidSlug(slug: string) {
    slug != "" && 'a' <= slug[0] <= 'z' && forall i :: 0 <= i < |slug| ==> SlugChar(slug[i])
  }

  /** The slug between a fixed beginning and a fixed end. */
  function SlugIn(text: string, pre: string, post: string): Option<string> {
    if |text| >= |pre| + |post| && pre <= text && text[|text| - |post|..] == post
       && ValidSlug(text[|pre|..|text| - |post|])
    then Some(text[|pre|..|text| - |post|]) else None
  }

  function BeginOf(line: string): Option<string> {
    SlugIn(Strip(line), BEGIN_PRE, BEGIN_POST)
  }

  function EndOf(line: string): Option<string> {
    SlugIn(Strip(line), END_PRE, END_POST)
  }

  function BeginLine(slug: string): string {
    BEGIN_PRE + slug + BEGIN_POST + "\n"
  }

  function EndLine(slug: string): string {
    END_PRE + slug + END_POST + "\n"
  }

  predicate Plain(line: string) {
    BeginOf(line).None? && EndOf(line).None?
  }

  predicate AllPlain(lines: seq<string>) {
    forall line :: line in lines ==> Plain(line)
  }

  lemma SlugInExactly(pre: string, slug: string, post: string)
    requires ValidSlug(slug)
    ensures SlugIn(pre + slug + post, pre, post) == Some(slug)
  {
    var text := pre + slug + post;
    assert text[|pre|..|text| - |post|] == slug;
    assert text[|text| - |post|..] == post;
    assert text[..|pre|] == pre;
  }

  lemma SlugInMeans(text: string, pre: string, post: string)
    requires SlugIn(text, pre, post).Some?
    ensures text == pre + SlugIn(text, pre, post).value + post && ValidSlug(SlugIn(text, pre, post).value)
  {
    assert text == text[..|pre|] + text[|pre|..|text| - |post|] + text[|text| - |post|..];
  }

  lemma NotBoth(text: string)
    ensures SlugIn(text, BEGIN_PRE, BEGIN_POST).None? || SlugIn(text, END_PRE, END_POST).None?
  {
    if BEGIN_PRE <= text {
      assert text[13] == BEGIN_PRE[13] == 'B';
      assert END_PRE[13] == 'E';
    }
  }

  /** The marker lines are exactly the terminated lines that carry a slug. */
  lemma BeginLines(slug: string)
    requires ValidSlug(slug)
    ensures BeginOf(BeginLine(slug)) == Some(slug) && EndOf(BeginLine(slug)) == None
  {
    var text := BEGIN_PRE + slug + BEGIN_POST;
    assert Strip(BeginLine(slug)) == text;
    SlugInExactly(BEGIN_PRE, slug, BEGIN_POST);
    NotBoth(text);
  }

  lemma EndLines(slug: string)
    requires ValidSlug(slug)
    ensures EndOf(EndLine(slug)) == Some(slug) && BeginOf(EndLine(slug)) == None
  {
    var text := END_PRE + slug + END_POST;
    assert Strip(EndLine(slug)) == text;
    SlugInExactly(END_PRE, slug, END_POST);
    NotBoth(text);
  }

  lemma EndedLine(line: string)
    requires Ended(line, NL)
    ensures line == Strip(line) + "\n"
  {
  }

  lemma BeginMeans(line: string)
    requires Ended(line, NL) && BeginOf(line).Some?
    ensures line == BeginLine(BeginOf(line).value) && ValidSlug(BeginOf(line).value)
  {
    EndedLine(line);
    SlugInMeans(Strip(line), BEGIN_PRE, BEGIN_POST);
  }

  lemma MarkerTextIsPlainAscii()
    ensures Printable(BEGIN_PRE) && Printable(BEGIN_POST) && Printable(END_PRE) && Printable(END_POST)
  {
  }

  lemma PrintableJoin(a: string, b: string)
    requires Printable(a) && Printable(b)
    ensures Printable(a + b)
  {
  }

  lemma PrintableLine(body: string)
    requires Printable(body)
    ensures IsLine(body + "\n", NL) && Ended(body + "\n", NL)
  {
    var line := body + "\n";
    forall i | 0 <= i < |line| - 1 ensures line[i] !in NL {
      assert line[i] == body[i];
    }
  }

  lemma MarkerLinesAreLines(slug: string)
    requires ValidSlug(slug)
    ensures IsLine(BeginLine(slug), NL) && Ended(BeginLine(slug), NL)
    ensures IsLine(EndLine(slug), NL) && Ended(EndLine(slug), NL)
  {
    assert Printable(slug);
    MarkerTextIsPlainAscii();
    hide Printable, IsLine, Ended;
    PrintableJoin(BEGIN_PRE, slug);
    PrintableJoin(BEGIN_PRE + slug, BEGIN_POST);
    PrintableLine(BEGIN_PRE + slug + BEGIN_POST);
    PrintableJoin(END_PRE, slug);
    PrintableJoin(END_PRE + slug, END_POST);
    PrintableLine(END_PRE + slug + END_POST);
  }

  // ----------------------------------------------------------------------- documents

  /** What the block pattern makes of the lines of a text: matched blocks, and the lines around them. */
  datatype Item = Line(text: string) | Block(slug: string, payload: seq<string>)

  /** The first terminated END line for `slug`, or the number of lines. */
  function NextEnd(lines: seq<string>, slug: string): (j: nat)
    ensures j <= |lines|
    ensures j < |lines| ==> lines[j] == EndLine(slug)
    ensures forall k :: 0 <= k < j ==> lines[k] != EndLine(slug)
  {
    if lines == [] || lines[0] == EndLine(slug) then 0 else 1 + NextEnd(lines[1..], slug)
  }

  /** A line that opens a block: a terminated BEGIN line with its END line further down. */
  predicate Opens(lines: seq<string>) {
    && lines != [] && BeginOf(lines[0]).Some? && Ended(lines[0], NL)
    && NextEnd(lines[1..], BeginOf(lines[0]).value) < |lines| - 1
  }

  function Doc(lines: seq<string>): seq<Item>
    decreases |lines|
  {
    if lines == [] then []
    else if Opens(lines) then
      var slug := BeginOf(lines[0]).value;
      var j := NextEnd(lines[1..], slug);
      [Block(slug, lines[1..j + 1])] + Doc(lines[j + 2..])
    else [Line(lines[0])] + Doc(lines[1..])
  }

  function ItemLines(item: Item): seq<string> {
    match item
    case Line(text) => [text]
    case Block(slug, payload) => [BeginLine(slug)] + payload + [EndLine(slug)]
  }

  function Print(doc: seq<Item>): seq<string> {
    if doc == [] then [] else ItemLines(doc[0]) + Print(doc[1..])
  }

  function Slugs(doc: seq<Item>): seq<string> {
    if doc == [] then [] else (if doc[0].Block? then [doc[0].slug] else []) + Slugs(doc[1..])
  }

  predicate Distinct(slugs: seq<string>) {
    forall i, j :: 0 <= i < j < |slugs| ==> slugs[i] != slugs[j]
  }

  predicate PlainItem(item: Item) {
    match item
    case Line(text) => Plain(text)
    case Block(slug, payload) => ValidSlug(slug) && AllPlain(payload)
  }

  /** The grammar: plain lines and flat blocks of plain lines. */
  predicate Clean(doc: seq<Item>) {
    forall item :: item in doc ==> PlainItem(item)
  }

  // --------------------------------------------------------------- what is accepted

  function AsSeq(slug: Option<string>): seq<string> {
    if slug.Some? then [slug.value] else []
  }

  /** The slugs of the marker lines of one kind, terminated or not. */
  function Marked(lines: seq<string>, pre: string, post: string): seq<string> {
    if lines == [] then [] else AsSeq(SlugIn(Strip(lines[0]), pre, post)) + Marked(lines[1..], pre, post)
  }

  function BeginSlugs(lines: seq<string>): seq<string> {
    Marked(lines, BEGIN_PRE, BEGIN_POST)
  }

  function EndSlugs(lines: seq<string>): seq<string> {
    Marked(lines, END_PRE, END_POST)
  }

  datatype ParseError = Duplicate | Unbalanced | Mismatch

  datatype Parsed = Accepted(doc: seq<Item>) | Rejected(error: ParseError)

  /** The checks on what the pattern found: no slug twice, as many BEGIN as END lines for each slug, and every BEGIN
      line the start of a block. */
  function ParseLines(lines: seq<string>): Parsed {
    var doc := Doc(lines);
    if !Distinct(Slugs(doc)) then Rejected(Duplicate)
    else if multiset(BeginSlugs(lines)) != multiset(EndSlugs(lines)) then Rejected(Unbalanced)
    else if |Slugs(doc)| != |BeginSlugs(lines)| then Rejected(Mismatch)
    else Accepted(doc)
  }

  function Parse(text: string): Parsed {
    ParseLines(Lines(text, NL))
  }

  lemma OpenedLines(lines: seq<string>)
    requires Opens(lines)
    ensures
      var slug := BeginOf(lines[0]).value;
      var j := NextEnd(lines[1..], slug);
      ValidSlug(slug) && lines == ItemLines(Block(slug, lines[1..j + 1])) + lines[j + 2..]
  {
    var slug := BeginOf(lines[0]).value;
    var j := NextEnd(lines[1..], slug);
    BeginMeans(lines[0]);
    assert lines[1..][j] == EndLine(slug);
    hide *;
    FourPieces(lines, j);
    BlockPieces(slug, lines[1..j + 1], lines[0], lines[j + 1]);
  }

  lemma BlockPieces(slug: string, payload: seq<string>, x: string, y: string)
    requires x == BeginLine(slug) && y == EndLine(slug)
    ensures [x] + payload + [y] == ItemLines(Block(slug, payload))
  {
    hide BeginLine, EndLine;
  }

  lemma FourPieces<T>(lines: seq<T>, j: nat)
    requires j + 1 < |lines|
    ensures lines == [lines[0]] + lines[1..j + 1] + [lines[j + 1]] + lines[j + 2..]
    ensures lines[j + 1] == lines[1..][j]
  {
  }

  lemma PiecesOfFour(x: string, mid: seq<string>, y: string, rest: seq<string>)
    ensures
      var lines := [x] + mid + [y] + rest;
      && lines[0] == x && lines[1..] == mid + [y] + rest
      && lines[1..|mid| + 1] == mid && lines[|mid| + 2..] == rest
  {
  }

  lemma {:induction false} PrintOfDoc(lines: seq<string>)
    ensures Print(Doc(lines)) == lines
    ensures forall item :: item in Doc(lines) && item.Block? ==> ValidSlug(item.slug)
    decreases |lines|
  {
    hide BeginOf, ItemLines, ValidSlug, NextEnd;
    if lines != [] {
      if Opens(lines) {
        var slug := BeginOf(lines[0]).value;
        var j := NextEnd(lines[1..], slug);
        OpenedLines(lines);
        PrintOfDoc(lines[j + 2..]);
        assert Doc(lines)[1..] == Doc(lines[j + 2..]);
      } else {
        PrintOfDoc(lines[1..]);
        assert Doc(lines)[1..] == Doc(lines[1..]);
        assert ItemLines(Line(lines[0])) == [lines[0]] by {
          LineItem(lines[0]);
        }
        assert lines == [lines[0]] + lines[1..];
      }
    }
  }

  lemma LineItem(text: string)
    ensures ItemLines(Line(text)) == [text]
  {
  }

  lemma {:induction false} NextEndOfPlain(payload: seq<string>, slug: string, rest: seq<string>)
    requires AllPlain(payload) && ValidSlug(slug)
    ensures NextEnd(payload + [EndLine(slug)] + rest, slug) == |payload|
  {
    EndLines(slug);
    hide EndLine, BeginOf, EndOf, ValidSlug;
    var lines := payload + [EndLine(slug)] + rest;
    if payload == [] {
      assert lines[0] == EndLine(slug);
    } else {
      assert payload[0] in payload && lines[0] == payload[0];
      NextEndOfPlain(payload[1..], slug, rest);
      TailOfThree(payload, [EndLine(slug)], rest);
    }
  }

  lemma TailOfThree<T>(a: seq<T>, b: seq<T>, c: seq<T>)
    requires a != []
    ensures (a + b + c)[1..] == a[1..] + b + c
  {
  }

  lemma PrintedBlockOpens(slug: string, payload: seq<string>, rest: seq<string>)
    requires ValidSlug(slug) && AllPlain(payload)
    ensures
      var lines := ItemLines(Block(slug, payload)) + rest;
      && lines != [] && Opens(lines) && BeginOf(lines[0]) == Some(slug) && NextEnd(lines[1..], slug) == |payload|
      && lines[1..|payload| + 1] == payload && lines[|payload| + 2..] == rest
  {
    BeginLines(slug);
    MarkerLinesAreLines(slug);
    NextEndOfPlain(payload, slug, rest);
    hide BeginOf, BeginLine, EndLine, ValidSlug, AllPlain, Ended, NextEnd;
    PiecesOfFour(BeginLine(slug), payload, EndLine(slug), rest);
  }

  lemma PlainDoesNotOpen(text: string, rest: seq<string>)
    requires Plain(text)
    ensures !Opens([text] + rest) && ([text] + rest)[1..] == rest
  {
  }

  /** Reading a printed document of the grammar gives it back. */
  lemma {:induction false} DocOfPrint(doc: seq<Item>)
    requires Clean(doc)
    ensures Doc(Print(doc)) == doc
  {
    hide BeginOf, ItemLines, ValidSlug, NextEnd, Opens, AllPlain;
    if doc != [] {
      var item, rest := doc[0], Print(doc[1..]);
      assert item in doc;
      DocOfPrint(doc[1..]);
      match item
      case Line(text) =>
        LineItem(text);
        PlainDoesNotOpen(text, rest);
      case Block(slug, payload) =>
        PrintedBlockOpens(slug, payload, rest);
    }
  }

  lemma ConcatAssociates(a: seq<string>, b: seq<string>, c: seq<string>)
    ensures a + b + c == a + (b + c)
  {
  }

  lemma {:induction false} MarkedJoin(a: seq<string>, b: seq<string>, pre: string, post: string)
    ensures Marked(a + b, pre, post) == Marked(a, pre, post) + Marked(b, pre, post)
  {
    hide SlugIn, AsSeq, Strip;
    if a == [] {
      assert a + b == b;
    } else {
      MarkedJoin(a[1..], b, pre, post);
      assert (a + b)[1..] == a[1..] + b && (a + b)[0] == a[0];
      ConcatAssociates(AsSeq(SlugIn(Strip(a[0]), pre, post)), Marked(a[1..], pre, post), Marked(b, pre, post));
    }
  }

  lemma SlugsJoin(a: seq<string>, b: seq<string>)
    ensures BeginSlugs(a + b) == BeginSlugs(a) + BeginSlugs(b)
    ensures EndSlugs(a + b) == EndSlugs(a) + EndSlugs(b)
  {
    MarkedJoin(a, b, BEGIN_PRE, BEGIN_POST);
    MarkedJoin(a, b, END_PRE, END_POST);
  }

  lemma {:induction false} NoneMarkedExactly(lines: seq<string>, pre: string, post: string)
    ensures Marked(lines, pre, post) == [] <==> forall line :: line in lines ==> SlugIn(Strip(line), pre, post).None?
  {
    hide SlugIn, Strip;
    if lines != [] {
      NoneMarkedExactly(lines[1..], pre, post);
      assert lines == [lines[0]] + lines[1..];
    }
  }

  lemma NoSlugsExactly(lines: seq<string>)
    ensures BeginSlugs(lines) == [] && EndSlugs(lines) == [] <==> AllPlain(lines)
  {
    NoneMarkedExactly(lines, BEGIN_PRE, BEGIN_POST);
    NoneMarkedExactly(lines, END_PRE, END_POST);
    hide SlugIn, Strip, Marked;
  }

  lemma SlugsOfOne(line: string)
    ensures BeginSlugs([line]) == AsSeq(BeginOf(line))
    ensures EndSlugs([line]) == AsSeq(EndOf(line))
  {
    hide SlugIn, Strip;
    assert [line][1..] == [];
    assert Marked([], BEGIN_PRE, BEGIN_POST) == [] == Marked([], END_PRE, END_POST);
  }

  lemma SlugsOfItem(item: Item)
    requires item.Block? ==> ValidSlug(item.slug)
    ensures item.Block? ==>
              && BeginSlugs(ItemLines(item)) == [item.slug] + BeginSlugs(item.payload)
              && EndSlugs(ItemLines(item)) == EndSlugs(item.payload) + [item.slug]
    ensures item.Line? ==>
              && BeginSlugs(ItemLines(item)) == BeginSlugs([item.text])
              && EndSlugs(ItemLines(item)) == EndSlugs([item.text])
  {
    hide BeginSlugs, EndSlugs;
    if item.Block? {
      BeginLines(item.slug);
      EndLines(item.slug);
      hide BeginOf, EndOf, BeginLine, EndLine, ValidSlug;
      MarkersAround(BeginLine(item.slug), item.payload, EndLine(item.slug), item.slug);
    }
  }

  lemma MarkersAround(x: string, payload: seq<string>, y: string, slug: string)
    requires BeginOf(x) == Some(slug) && EndOf(x) == None && EndOf(y) == Some(slug) && BeginOf(y) == None
    ensures BeginSlugs([x] + payload + [y]) == [slug] + BeginSlugs(payload)
    ensures EndSlugs([x] + payload + [y]) == EndSlugs(payload) + [slug]
  {
    hide BeginSlugs, EndSlugs, BeginOf, EndOf;
    SlugsJoin([x] + payload, [y]);
    SlugsJoin([x], payload);
    SlugsOfOne(x);
    SlugsOfOne(y);
  }

  function OwnSlug(item: Item): seq<string> {
    if item.Block? then [item.slug] else []
  }

  /** An item of the grammar has the marker lines of its block and no others. */
  lemma ItemCounts(item: Item)
    requires item.Block? ==> ValidSlug(item.slug)
    ensures |BeginSlugs(ItemLines(item))| >= |OwnSlug(item)| && |EndSlugs(ItemLines(item))| >= |OwnSlug(item)|
    ensures |BeginSlugs(ItemLines(item))| == |OwnSlug(item)| && |EndSlugs(ItemLines(item))| == |OwnSlug(item)|
            <==> PlainItem(item)
    ensures PlainItem(item) ==>
              BeginSlugs(ItemLines(item)) == OwnSlug(item) && EndSlugs(ItemLines(item)) == OwnSlug(item)
  {
    SlugsOfItem(item);
    match item
    case Line(text) =>
      SlugsOfOne(text);
    case Block(slug, payload) =>
      NoSlugsExactly(payload);
  }

  lemma {:induction false} DocCounts(doc: seq<Item>)
    requires forall item :: item in doc && item.Block? ==> ValidSlug(item.slug)
    ensures |BeginSlugs(Print(doc))| >= |Slugs(doc)| && |EndSlugs(Print(doc))| >= |Slugs(doc)|
    ensures |BeginSlugs(Print(doc))| == |Slugs(doc)| && |EndSlugs(Print(doc))| == |Slugs(doc)| <==> Clean(doc)
    ensures Clean(doc) ==> BeginSlugs(Print(doc)) == Slugs(doc) && EndSlugs(Print(doc)) == Slugs(doc)
  {
    hide ItemLines, PlainItem, ValidSlug;
    if doc != [] {
      var item, rest := doc[0], doc[1..];
      assert item in doc;
      DocCounts(rest);
      ItemCounts(item);
      SlugsJoin(ItemLines(item), Print(rest));
      assert Clean(doc) <==> PlainItem(item) && Clean(rest) by {
        assert doc == [item] + rest;
      }
      assert Slugs(doc) == OwnSlug(item) + Slugs(rest);
    }
  }

  /** What is accepted: exactly the lines of a document of the grammar with distinct slugs, and the parse is that
      document. */
  lemma GrammarExactly(lines: seq<string>)
    ensures ParseLines(lines).Accepted? <==> Clean(Doc(lines)) && Distinct(Slugs(Doc(lines)))
    ensures ParseLines(lines).Accepted? ==>
              ParseLines(lines).doc == Doc(lines) && Print(Doc(lines)) == lines
  {
    hide Clean, Doc, Print, BeginSlugs, EndSlugs, Slugs, Distinct;
    var doc := Doc(lines);
    PrintOfDoc(lines);
    DocCounts(doc);
    assert |multiset(BeginSlugs(lines))| == |BeginSlugs(lines)| && |multiset(EndSlugs(lines))| == |EndSlugs(lines)|;
  }

  /** A printed document of the grammar with distinct slugs is accepted as that document. */
  lemma GrammarAccepts(doc: seq<Item>)
    requires Clean(doc) && Distinct(Slugs(doc))
    ensures ParseLines(Print(doc)) == Accepted(doc)
  {
    DocOfPrint(doc);
    GrammarExactly(Print(doc));
  }

  // --------------------------------------------------------------------- replacement

  datatype ReplaceResult = Replaced(text: string) | InvalidSlug | Missing | Refused(error: ParseError)

  function Render(slug: string, payload: string): string {
    BeginLine(slug) + Canonical(payload) + EndLine(slug)
  }

  /** The document with another payload for one slug; everything else as it was. */
  function Put(doc: seq<Item>, slug: string, payload: seq<string>): seq<Item> {
    seq(|doc|, i requires 0 <= i < |doc| =>
      if doc[i].Block? && doc[i].slug == slug then Block(slug, payload) else doc[i])
  }

  function Replace(text: string, slug: string, payload: string): ReplaceResult {
    if !ValidSlug(slug) then InvalidSlug
    else
      match Parse(text)
      case Rejected(error) => Refused(error)
      case Accepted(doc) =>
        if slug !in Slugs(doc) then Missing
        else Replaced(Flat(Print(Put(doc, slug, CanonicalLines(payload)))))
  }

  lemma {:induction false} PrintJoin(a: seq<Item>, b: seq<Item>)
    ensures Print(a + b) == Print(a) + Print(b)
    ensures Slugs(a + b) == Slugs(a) + Slugs(b)
  {
    hide ItemLines;
    if a == [] {
      assert a + b == b;
    } else {
      PrintJoin(a[1..], b);
      assert (a + b)[1..] == a[1..] + b && (a + b)[0] == a[0];
      ConcatAssociates(ItemLines(a[0]), Print(a[1..]), Print(b));
    }
  }

  lemma PrintOne(item: Item)
    ensures Print([item]) == ItemLines(item)
    ensures Slugs([item]) == OwnSlug(item)
  {
    hide ItemLines;
    assert [item][1..] == [];
    assert Print([]) == [];
  }

  lemma PrintAround(a: seq<Item>, item: Item, b: seq<Item>)
    ensures Print(a + [item] + b) == Print(a) + ItemLines(item) + Print(b)
    ensures Slugs(a + [item] + b) == Slugs(a) + OwnSlug(item) + Slugs(b)
  {
    hide ItemLines, Print, Slugs;
    PrintJoin(a + [item], b);
    PrintJoin(a, [item]);
    PrintOne(item);
  }

  /** A slug of the document is the slug of one of its blocks; with distinct slugs, of exactly one. */
  lemma {:induction false} FindSlug(doc: seq<Item>, slug: string) returns (k: nat)
    requires slug in Slugs(doc)
    ensures k < |doc| && doc[k].Block? && doc[k].slug == slug
  {
    if doc[0].Block? && doc[0].slug == slug {
      k := 0;
    } else {
      k := FindSlug(doc[1..], slug);
      k := k + 1;
    }
  }

  lemma {:induction false} SlugsContain(doc: seq<Item>, k: nat)
    requires k < |doc| && doc[k].Block?
    ensures doc[k].slug in Slugs(doc)
  {
    if k > 0 {
      SlugsContain(doc[1..], k - 1);
    }
  }

  lemma DistinctApart(a: seq<string>, b: seq<string>, s: string, t: string)
    requires Distinct(a + b) && s in a && t in b
    ensures s != t
  {
    var i :| 0 <= i < |a| && a[i] == s;
    var j :| 0 <= j < |b| && b[j] == t;
    assert (a + b)[i] == s && (a + b)[|a| + j] == t;
  }

  lemma DistinctTail(a: seq<string>, b: seq<string>)
    requires Distinct(a + b)
    ensures Distinct(b)
  {
    assert forall i :: 0 <= i < |b| ==> (a + b)[|a| + i] == b[i];
  }

  lemma {:induction false} OnlyOneBlock(doc: seq<Item>, k: nat, m: nat)
    requires Distinct(Slugs(doc)) && k < m < |doc| && doc[k].Block? && doc[m].Block?
    ensures doc[k].slug != doc[m].slug
  {
    hide Distinct;
    var rest := doc[1..];
    assert Slugs(doc) == OwnSlug(doc[0]) + Slugs(rest);
    assert rest[m - 1] == doc[m];
    if k == 0 {
      SlugsContain(rest, m - 1);
      DistinctApart([doc[0].slug], Slugs(rest), doc[0].slug, doc[m].slug);
    } else {
      assert rest[k - 1] == doc[k];
      DistinctTail(OwnSlug(doc[0]), Slugs(rest));
      hide Slugs;
      OnlyOneBlock(rest, k - 1, m - 1);
    }
  }

  /** With distinct slugs, replacing a payload changes exactly one item. */
  lemma PutAround(doc: seq<Item>, k: nat, payload: seq<string>)
    requires Distinct(Slugs(doc)) && k < |doc| && doc[k].Block?
    ensures Put(doc, doc[k].slug, payload) == doc[..k] + [Block(doc[k].slug, payload)] + doc[k + 1..]
    ensures doc == doc[..k] + [doc[k]] + doc[k + 1..]
  {
    hide Slugs, Distinct;
    forall i | 0 <= i < |doc| && i != k && doc[i].Block? ensures doc[i].slug != doc[k].slug {
      if i < k { OnlyOneBlock(doc, i, k); } else { OnlyOneBlock(doc, k, i); }
    }
  }

  lemma BlockLinesAreCut(slug: string, payload: seq<string>)
    requires ValidSlug(slug) && Cut(payload, NL) && AllEnded(payload, NL)
    ensures Cut(ItemLines(Block(slug, payload)), NL) && AllEnded(ItemLines(Block(slug, payload)), NL)
  {
    MarkerLinesAreLines(slug);
    hide BeginLine, EndLine, IsLine, Ended, ValidSlug;
    CutJoin([BeginLine(slug)], payload, NL);
    CutJoin([BeginLine(slug)] + payload, [EndLine(slug)], NL);
  }

  lemma CutSplit(a: seq<string>, b: seq<string>)
    requires Cut(a + b, NL)
    ensures Cut(a, NL) && Cut(b, NL) && (b != [] ==> AllEnded(a, NL))
  {
    hide IsLine, Ended;
    var all := a + b;
    assert forall k :: 0 <= k < |a| ==> all[k] == a[k];
    assert forall k :: 0 <= k < |b| ==> all[|a| + k] == b[k];
  }

  /** Other lines may take the place of a middle part. */
  lemma CutSwap(a: seq<string>, mid: seq<string>, b: seq<string>, mid': seq<string>)
    requires Cut(a + mid + b, NL) && mid != []
    requires Cut(mid', NL) && AllEnded(mid', NL)
    ensures Cut(a + mid' + b, NL)
  {
    hide Cut, AllEnded;
    CutSplit(a + mid, b);
    CutSplit(a, mid);
    CutJoin(a, mid', NL);
    EndedJoin(a, mid');
    CutJoin(a + mid', b, NL);
  }

  lemma EndedJoin(a: seq<string>, b: seq<string>)
    requires AllEnded(a, NL) && AllEnded(b, NL)
    ensures AllEnded(a + b, NL)
  {
  }

  /** The lines of a replaced text are the printed document with the changed payload. */
  lemma ReplacedLines(lines: seq<string>, k: nat, payload: string)
    requires Cut(lines, NL) && Distinct(Slugs(Doc(lines))) && k < |Doc(lines)| && Doc(lines)[k].Block?
    ensures
      var doc := Doc(lines);
      var changed := Put(doc, doc[k].slug, CanonicalLines(payload));
      && Lines(Flat(Print(changed)), NL) == Print(changed)
      && Print(changed) == Print(doc[..k]) + ItemLines(Block(doc[k].slug, CanonicalLines(payload))) + Print(doc[k + 1..])
      && ValidSlug(doc[k].slug)
  {
    var doc := Doc(lines);
    PrintOfDoc(lines);
    CanonicalIsCut(payload);
    assert doc[k] in doc;
    var slug := doc[k].slug;
    var block := Block(slug, CanonicalLines(payload));
    PutAround(doc, k, CanonicalLines(payload));
    hide Doc, Slugs, Print, CanonicalLines, ValidSlug, Cut, AllEnded, Distinct, Flat, Lines;
    PrintAround(doc[..k], doc[k], doc[k + 1..]);
    PrintAround(doc[..k], block, doc[k + 1..]);
    BlockLinesAreCut(slug, CanonicalLines(payload));
    CutSwap(Print(doc[..k]), ItemLines(doc[k]), Print(doc[k + 1..]), ItemLines(block));
    LinesOfFlat(Print(Put(doc, slug, CanonicalLines(payload))), NL);
  }

  lemma DistinctSwap(a: seq<Item>, slug: string, p: seq<string>, q: seq<string>, b: seq<Item>)
    ensures Slugs(a + [Block(slug, p)] + b) == Slugs(a + [Block(slug, q)] + b)
  {
    hide Slugs, Print;
    PrintAround(a, Block(slug, p), b);
    PrintAround(a, Block(slug, q), b);
  }

  lemma CleanJoin(a: seq<Item>, item: Item, b: seq<Item>)
    ensures Clean(a + [item] + b) <==> Clean(a) && PlainItem(item) && Clean(b)
  {
    hide PlainItem;
    var all := a + [item] + b;
    assert forall i :: 0 <= i < |a| ==> all[i] == a[i];
    assert all[|a|] == item;
    assert forall i :: 0 <= i < |b| ==> all[|a| + 1 + i] == b[i];
  }

  /** A payload with a marker line makes the markers of the whole text uneven or doubles a slug. */
  lemma SpoiledPayload(a: seq<Item>, slug: string, payload: seq<string>, b: seq<Item>)
    requires Clean(a) && Clean(b) && ValidSlug(slug) && !AllPlain(payload)
    ensures !ParseLines(Print(a) + ItemLines(Block(slug, payload)) + Print(b)).Accepted?
  {
    var mid := ItemLines(Block(slug, payload));
    var lines := Print(a) + mid + Print(b);
    if ParseLines(lines).Accepted? {
      var doc := Doc(lines);
      GrammarExactly(lines);
      PrintOfDoc(lines);
      DocCounts(doc);
      DocCounts(a);
      DocCounts(b);
      NoSlugsExactly(payload);
      SlugsOfItem(Block(slug, payload));
      hide Doc, Print, ItemLines, BeginSlugs, EndSlugs, ParseLines, Clean, AllPlain, ValidSlug, Slugs, Distinct;
      SlugsJoin(Print(a) + mid, Print(b));
      SlugsJoin(Print(a), mid);
      TwiceListed(Slugs(a), slug, BeginSlugs(payload), EndSlugs(payload), Slugs(b));
    }
  }

  /** If opening and closing slugs are listed alike around a payload that has some, one slug is listed twice. */
  lemma TwiceListed(a: seq<string>, slug: string, begins: seq<string>, ends: seq<string>, b: seq<string>)
    requires a + ([slug] + begins) + b == a + (ends + [slug]) + b
    requires begins != [] || ends != []
    ensures !Distinct(a + ([slug] + begins) + b)
  {
    var all := a + ([slug] + begins) + b;
    var last := |a| + |begins|;
    assert |begins| == |ends|;
    assert all[|a|] == slug;
    assert (a + (ends + [slug]) + b)[last] == slug;
  }

  /** After a replacement the text is accepted exactly when the canonical payload has no marker line; then the parse is
      the old document with that payload, and replacing again changes nothing. */
  lemma ReplaceRoundTrip(text: string, slug: string, payload: string)
    requires ValidSlug(slug) && Parse(text).Accepted? && slug in Slugs(Parse(text).doc)
    ensures
      var doc := Parse(text).doc;
      var result := Replace(text, slug, payload);
      && result.Replaced?
      && (Parse(result.text).Accepted? <==> AllPlain(CanonicalLines(payload)))
      && (AllPlain(CanonicalLines(payload)) ==>
            && Parse(result.text) == Accepted(Put(doc, slug, CanonicalLines(payload)))
            && Replace(result.text, slug, payload) == result)
  {
    var lines := Lines(text, NL);
    FlatOfLines(text, NL);
    GrammarExactly(lines);
    hide Lines, CanonicalLines, ParseLines, ValidSlug, Slugs, Print, Distinct, Flat, Cut;
    var doc := Doc(lines);
    var k := FindSlug(doc, slug);
    ReplacedLines(lines, k, payload);
    PutAround(doc, k, CanonicalLines(payload));
    var a, b, block := doc[..k], doc[k + 1..], Block(slug, CanonicalLines(payload));
    CleanJoin(a, doc[k], b);
    CleanJoin(a, block, b);
    if AllPlain(CanonicalLines(payload)) {
      DistinctSwap(a, slug, doc[k].payload, CanonicalLines(payload), b);
      GrammarAccepts(Put(doc, slug, CanonicalLines(payload)));
      PutTwice(doc, slug, CanonicalLines(payload));
    } else {
      SpoiledPayload(a, slug, CanonicalLines(payload), b);
    }
  }

  lemma {:induction false} PutTwice(doc: seq<Item>, slug: string, payload: seq<string>)
    ensures Put(Put(doc, slug, payload), slug, payload) == Put(doc, slug, payload)
    ensures Slugs(Put(doc, slug, payload)) == Slugs(doc)
  {
    if doc != [] {
      PutTwice(doc[1..], slug, payload);
      assert Put(doc, slug, payload)[1..] == Put(doc[1..], slug, payload);
    }
  }

  /** Canonicalizing can make a marker of a line that was none: this payload has no marker line, its canonical form
      has, and a block that holds it cannot be read again. */
  lemma TrailingBlankMakesAMarker(slug: string)
    requires ValidSlug(slug)
    ensures
      var payload := END_PRE + slug + END_POST + " ";
      AllPlain(Lines(payload, NL)) && CanonicalLines(payload) == [EndLine(slug)] && !AllPlain(CanonicalLines(payload))
  {
    var body := END_PRE + slug + END_POST;
    assert Printable(body) by {
      assert Printable(slug);
      MarkerTextIsPlainAscii();
      hide Printable, ValidSlug;
      PrintableJoin(END_PRE, slug);
      PrintableJoin(END_PRE + slug, END_POST);
    }
    assert body[|body| - 1] == '>' by {
      assert END_POST[|END_POST| - 1] == '>';
    }
    EndLines(slug);
    hide Lines, Read, ValidSlug, BeginOf, EndOf;
    BlankAfterMarker(body);
    assert body + "\n" == EndLine(slug);
    assert EndLine(slug) in [EndLine(slug)];
  }

  lemma BlankAfterMarker(body: string)
    requires Printable(body) && body != "" && body[|body| - 1] == '>'
    ensures AllPlain(Lines(body + " ", NL)) && CanonicalLines(body + " ") == [body + "\n"]
  {
    var payload := body + " ";
    TrimOneBlank(body);
    PrintableJoin(body, " ");
    hide *;
    OneLineText(payload);
    NotAMarker(payload);
    OneCanonicalLine(payload, body);
    OnePlain(payload);
  }

  lemma OnePlain(line: string)
    requires Plain(line)
    ensures AllPlain([line])
  {
  }

  lemma TrimOneBlank(body: string)
    requires body != "" && body[|body| - 1] == '>'
    ensures TrimBlanks(body + " ") == body && (body + " ")[|body + " "| - 1] == ' '
  {
    var payload := body + " ";
    assert payload[..|body|] == body;
    assert TrimBlanks(body) == body;
  }

  lemma NotAMarker(line: string)
    requires line != "" && line[|line| - 1] == ' ' && Strip(line) == line
    ensures Plain(line)
  {
    assert BEGIN_POST[|BEGIN_POST| - 1] == '>' == END_POST[|END_POST| - 1];
    forall pre, post | SlugIn(line, pre, post).Some? && post != "" ensures post[|post| - 1] == ' ' {
      assert line[|line| - |post|..][|post| - 1] == line[|line| - 1];
    }
  }

  lemma OneLineText(text: string)
    requires Printable(text) && text != ""
    ensures Lines(text, NL) == [text] && Read(text) == text && Strip(text) == text
  {
    forall c | c in text ensures c != '\n' && c != '\r' {
    }
    ReadIsIdentityExactly(text);
    FlatOne(text);
    LinesOfFlat([text], NL);
  }

  lemma OneCanonicalLine(text: string, body: string)
    requires Read(text) == text && Lines(text, NL) == [text] && TrimBlanks(Strip(text)) == body && body != ""
    ensures CanonicalLines(text) == [body + "\n"]
  {
    assert TrimAll([text]) == [body];
    assert DropEmpty([body]) == [body];
  }

  // ------------------------------------------------------------------ the two methods

  /** One block as reported: where its BEGIN line starts, where its END line ends, and its payload. */
  datatype ParsedBlock = ParsedBlock(start: nat, end: nat, payload: string)

  datatype BlocksResult = Blocks(blocks: map<string, ParsedBlock>) | Bad(error: ParseError)

  /** The blocks of a document by slug. */
  function BlockMap(doc: seq<Item>): map<string, ParsedBlock> {
    if doc == [] then map[]
    else
      var front, last := doc[..|doc| - 1], doc[|doc| - 1];
      if last.Block? then
        BlockMap(front)[last.slug := ParsedBlock(|Flat(Print(front))|, |Flat(Print(doc))|, Flat(last.payload))]
      else BlockMap(front)
  }

  lemma BlockMapSnoc(doc: seq<Item>, item: Item)
    ensures BlockMap(doc + [item])
         == if item.Block? then
              BlockMap(doc)[item.slug := ParsedBlock(|Flat(Print(doc))|, |Flat(Print(doc + [item]))|, Flat(item.payload))]
            else BlockMap(doc)
    ensures Print(doc + [item]) == Print(doc) + ItemLines(item)
    ensures Flat(Print(doc + [item])) == Flat(Print(doc)) + Flat(ItemLines(item))
    ensures Slugs(doc + [item]) == Slugs(doc) + OwnSlug(item)
  {
    hide Print, Slugs, Flat, ItemLines;
    assert (doc + [item])[..|doc|] == doc;
    PrintJoin(doc, [item]);
    PrintOne(item);
    FlatJoin(Print(doc), ItemLines(item));
  }

  lemma {:induction false} BlockMapKeys(doc: seq<Item>)
    ensures forall slug :: slug in BlockMap(doc) <==> slug in Slugs(doc)
    ensures Distinct(Slugs(doc)) ==> |BlockMap(doc)| == |Slugs(doc)|
  {
    hide Print, Flat;
    if doc != [] {
      var front, last := doc[..|doc| - 1], doc[|doc| - 1];
      assert doc == front + [last];
      BlockMapKeys(front);
      BlockMapSnoc(front, last);
      if Distinct(Slugs(doc)) {
        assert Distinct(Slugs(front)) by {
          DistinctPrefix(Slugs(front), OwnSlug(last));
        }
        if last.Block? && last.slug in Slugs(front) {
          DistinctApart(Slugs(front), [last.slug], last.slug, last.slug);
        }
      }
    }
  }

  lemma DistinctPrefix(a: seq<string>, b: seq<string>)
    requires Distinct(a + b)
    ensures Distinct(a)
  {
    forall i, j | 0 <= i < j < |a| ensures a[i] != a[j] {
      assert (a + b)[i] == a[i] && (a + b)[j] == a[j];
    }
  }

  lemma DistinctSnoc(a: seq<string>, s: string)
    requires Distinct(a) && s !in a
    ensures Distinct(a + [s])
  {
  }

  /** The next item of the document of the lines from `i` on. */
  lemma DocStep(lines: seq<string>, i: nat)
    requires i < |lines|
    ensures !Opens(lines[i..]) ==> Doc(lines[i..]) == [Line(lines[i])] + Doc(lines[i + 1..])
    ensures Opens(lines[i..]) ==> BeginOf(lines[i]).Some?
    ensures Opens(lines[i..]) ==>
              var slug := BeginOf(lines[i]).value;
              var j := NextEnd(lines[i + 1..], slug);
              && i + j + 2 <= |lines|
              && Doc(lines[i..]) == [Block(slug, lines[i + 1..i + 1 + j])] + Doc(lines[i + j + 2..])
              && ItemLines(Block(slug, lines[i + 1..i + 1 + j])) == lines[i..i + j + 2]
  {
    hide *;
    var rest := lines[i..];
    SliceOfSlice(lines, i, 0);
    UnopenedDoc(rest);
    if Opens(rest) {
      OpenedDoc(rest);
      var slug := BeginOf(rest[0]).value;
      var j := NextEnd(rest[1..], slug);
      SliceOfSlice(lines, i, j);
      PrefixOfConcat(ItemLines(Block(slug, rest[1..j + 1])), rest[j + 2..], rest);
    }
  }

  lemma UnopenedDoc(lines: seq<string>)
    requires lines != []
    ensures !Opens(lines) ==> Doc(lines) == [Line(lines[0])] + Doc(lines[1..])
  {
    hide Opens;
  }

  lemma OpenedDoc(lines: seq<string>)
    requires lines != [] && Opens(lines)
    ensures
      BeginOf(lines[0]).Some?
      && var slug := BeginOf(lines[0]).value;
      var j := NextEnd(lines[1..], slug);
      && j + 2 <= |lines|
      && Doc(lines) == [Block(slug, lines[1..j + 1])] + Doc(lines[j + 2..])
      && lines == ItemLines(Block(slug, lines[1..j + 1])) + lines[j + 2..]
  {
    OpenedLines(lines);
    DocOfOpened(lines);
    hide *;
    hide Doc, ItemLines;
    OpensMeans(lines);
  }

  lemma OpensMeans(lines: seq<string>)
    requires lines != [] && Opens(lines)
    ensures BeginOf(lines[0]).Some? && NextEnd(lines[1..], BeginOf(lines[0]).value) + 2 <= |lines|
  {
    hide BeginOf, NextEnd, Ended;
  }

  lemma DocOfOpened(lines: seq<string>)
    requires Opens(lines)
    ensures
      var slug := BeginOf(lines[0]).value;
      var j := NextEnd(lines[1..], slug);
      Doc(lines) == [Block(slug, lines[1..j + 1])] + Doc(lines[j + 2..])
  {
    hide BeginOf, NextEnd, Ended;
  }

  lemma SliceOfSlice<T>(lines: seq<T>, i: nat, j: nat)
    requires i < |lines|
    ensures lines[i..][0] == lines[i] && lines[i..][1..] == lines[i + 1..]
    ensures i + j + 2 <= |lines| ==>
              && lines[i..][1..j + 1] == lines[i + 1..i + 1 + j] && lines[i..][j + 2..] == lines[i + j + 2..]
              && lines[i..i + j + 2] == lines[i..][..j + 2]
  {
  }

  lemma PrefixOfConcat<T>(a: seq<T>, b: seq<T>, c: seq<T>)
    requires c == a + b
    ensures c[..|c| - |b|] == a
  {
  }

  /** What is reported for a text. */
  function BlocksOf(text: string): BlocksResult {
    match Parse(text)
    case Rejected(error) => Bad(error)
    case Accepted(doc) => Blocks(BlockMap(doc))
  }

  method ParseBlocks(text: string) returns (r: BlocksResult)
    ensures r == BlocksOf(text)
  {
    hide Print, Flat, ItemLines, Opens, BeginOf, ValidSlug, NextEnd, LineLength, IsLine, Lines, BlockMap, Slugs, Distinct,
      Doc, Marked;
    var lines := Lines(text, NL);
    var blocks: map<string, ParsedBlock> := map[];
    var i, offset := 0, 0;
    ghost var done: seq<Item> := [];
    assert lines[0..] == lines;
    EmptyDoc(lines);
    while i < |lines|
      invariant i <= |lines| && Doc(lines) == done + Doc(lines[i..])
      invariant offset == |Flat(Print(done))|
      invariant blocks == BlockMap(done) && Distinct(Slugs(done))
    {
      DocStep(lines, i);
      BlockMapKeys(done);
      if Opens(lines[i..]) {
        var slug := BeginOf(lines[i]).value;
        var j := NextEnd(lines[i + 1..], slug);
        var item := Block(slug, lines[i + 1..i + 1 + j]);
        BlockMapSnoc(done, item);
        if slug in blocks {
          DoubledSlug(done, item, Doc(lines[i + j + 2..]));
          assert done + [item] + Doc(lines[i + j + 2..]) == Doc(lines);
          return Bad(Duplicate);
        }
        DistinctSnoc(Slugs(done), slug);
        var end := offset + |Flat(lines[i..i + j + 2])|;
        blocks := blocks[slug := ParsedBlock(offset, end, Flat(item.payload))];
        done, offset, i := done + [item], end, i + j + 2;
      } else {
        BlockMapSnoc(done, Line(lines[i]));
        assert Slugs(done) + [] == Slugs(done);
        LineItem(lines[i]);
        FlatOne(lines[i]);
        done, offset, i := done + [Line(lines[i])], offset + |lines[i]|, i + 1;
      }
    }
    NothingLeft(lines);
    assert lines[i..] == lines[|lines|..] && done + [] == done;
    BlockMapKeys(done);
    var begins, ends := BeginSlugs(lines), EndSlugs(lines);
    if multiset(begins) != multiset(ends) {
      return Bad(Unbalanced);
    }
    if |blocks| != |begins| {
      return Bad(Mismatch);
    }
    return Blocks(blocks);
  }

  lemma EmptyDoc(lines: seq<string>)
    ensures Flat(Print([])) == "" && BlockMap([]) == map[] && Slugs([]) == [] && Distinct([])
  {
  }

  lemma NothingLeft(lines: seq<string>)
    ensures Doc(lines[|lines|..]) == []
  {
  }

  lemma DoubledSlug(done: seq<Item>, item: Item, rest: seq<Item>)
    requires item.Block? && item.slug in BlockMap(done)
    ensures !Distinct(Slugs(done + [item] + rest))
  {
    BlockMapKeys(done);
    hide BlockMap, Slugs, Print;
    PrintAround(done, item, rest);
    if Distinct(Slugs(done) + [item.slug] + Slugs(rest)) {
      DistinctPrefix(Slugs(done) + [item.slug], Slugs(rest));
      DistinctApart(Slugs(done), [item.slug], item.slug, item.slug);
    }
  }

  /** Where the block with a slug stands: its offsets cut the text around it. */
  lemma {:induction false} BlockAt(doc: seq<Item>, k: nat)
    requires Distinct(Slugs(doc)) && k < |doc| && doc[k].Block?
    ensures doc[k].slug in BlockMap(doc)
    ensures BlockMap(doc)[doc[k].slug]
         == ParsedBlock(|Flat(Print(doc[..k]))|, |Flat(Print(doc[..k + 1]))|, Flat(doc[k].payload))
  {
    hide Print, Flat, Distinct, Slugs;
    var front, last := doc[..|doc| - 1], doc[|doc| - 1];
    assert doc == front + [last];
    BlockMapSnoc(front, last);
    if k == |doc| - 1 {
      assert doc[..k + 1] == doc;
    } else {
      DistinctPrefix(Slugs(front), OwnSlug(last));
      BlockAt(front, k);
      assert front[..k] == doc[..k] && front[..k + 1] == doc[..k + 1];
      if last.Block? {
        OnlyOneBlock(doc, k, |doc| - 1);
      }
    }
  }

  method ReplaceBlock(text: string, slug: string, payload: string) returns (r: ReplaceResult)
    ensures r == Replace(text, slug, payload)
  {
    hide BlocksOf, Print, Flat, BlockMap, Slugs, Distinct, ValidSlug, Lines, ParseLines, CanonicalLines;
    if !ValidSlug(slug) {
      return InvalidSlug;
    }
    var parsed := ParseBlocks(text);
    WhatIsReported(text, slug, payload);
    if parsed.Bad? {
      return Refused(parsed.error);
    }
    if slug !in parsed.blocks {
      return Missing;
    }
    var block := parsed.blocks[slug];
    var canonical := Canonicalize(payload);
    var rendered := BeginLine(slug) + canonical + EndLine(slug);
    return Replaced(text[..block.start] + rendered + text[block.end..]);
  }

  /** Cutting the text at the reported offsets and putting the rendered block between is the replacement. */
  lemma WhatIsReported(text: string, slug: string, payload: string)
    requires ValidSlug(slug)
    ensures BlocksOf(text).Bad? ==> Replace(text, slug, payload) == Refused(BlocksOf(text).error)
    ensures BlocksOf(text).Blocks? ==>
              var blocks := BlocksOf(text).blocks;
              if slug !in blocks then Replace(text, slug, payload) == Missing
              else
                && blocks[slug].start <= blocks[slug].end <= |text|
                && Replace(text, slug, payload)
                   == Replaced(text[..blocks[slug].start] + Render(slug, payload) + text[blocks[slug].end..])
  {
    var lines := Lines(text, NL);
    FlatOfLines(text, NL);
    GrammarExactly(lines);
    hide Lines, ParseLines, Slugs, Print, Distinct, Flat, BlockMap, Canonical, CanonicalLines, Doc, Clean, BeginLine, EndLine;
    var doc := Doc(lines);
    if ParseLines(lines).Accepted? {
      BlockMapKeys(doc);
      if slug in Slugs(doc) {
        var k := FindSlug(doc, slug);
        BlockAt(doc, k);
        PutAround(doc, k, CanonicalLines(payload));
        var a, b, block := doc[..k], doc[k + 1..], Block(slug, CanonicalLines(payload));
        CutAround(a, doc[k], b, text);
        assert doc[..k + 1] == a + [doc[k]];
        PrintAround(a, block, b);
        FlatAround(Print(a), ItemLines(block), Print(b));
        FlatOfBlock(slug, payload);
      }
    }
  }

  lemma FlatAround(a: seq<string>, b: seq<string>, c: seq<string>)
    ensures Flat(a + b + c) == Flat(a) + Flat(b) + Flat(c)
  {
    hide Flat;
    FlatJoin(a + b, c);
    FlatJoin(a, b);
  }

  lemma CutAround(a: seq<Item>, item: Item, b: seq<Item>, text: string)
    requires text == Flat(Print(a + [item] + b))
    ensures
      var start, end := |Flat(Print(a))|, |Flat(Print(a + [item]))|;
      start <= end <= |text| && text[..start] == Flat(Print(a)) && text[end..] == Flat(Print(b))
  {
    hide Flat, Print;
    PrintAround(a, item, b);
    FlatAround(Print(a), ItemLines(item), Print(b));
    BlockMapSnoc(a, item);
  }

  lemma FlatOfBlock(slug: string, payload: string)
    ensures Flat(ItemLines(Block(slug, CanonicalLines(payload)))) == Render(slug, payload)
  {
    hide Flat, BeginLine, EndLine, CanonicalLines;
    FlatAround([BeginLine(slug)], CanonicalLines(payload), [EndLine(slug)]);
    FlatOne(BeginLine(slug));
    FlatOne(EndLine(slug));
  }
}
