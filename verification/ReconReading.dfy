/** Exactly when a merged document is read back as it was put together. */
module ReconReading {
  import opened Prelude
  import opened TextLines
  import opened Recon

  /** A section with a good key and a title as the heading parser leaves it, perhaps empty. */
  predicate Shaped(s: Section) {
    && GoodKey(s.key) && '\n' !in s.title
    && (s.title != "" ==> !IsSpace(s.title[0]) && !IsSpace(s.title[|s.title| - 1]))
  }

  /** No body has a heading of its own, and every heading has a title, but for the last when nothing is under it. */
  predicate Readable(sections: seq<Section>) {
    forall i :: 0 <= i < |sections| ==>
      && NoHead(sections[i].body, true)
      && (sections[i].title != "" || (i == |sections| - 1 && TrimRight(sections[i].body) == ""))
  }

  // ------------------------------------------------------- a heading within a body

  lemma SpaceIsNoHead(x: string, c: char)
    requires IsSpace(c) && HeadStart(x + [c])
    ensures HeadStart(x)
  {
    var text := x + [c];
    FoundKeyIsGood(text);
    var (key, after) := Anchor(text).value;
    BracketIsNoSpace();
    BeforeTheSpace(x, c, OPEN + key, after);
    RenderedHead(key, after[..|after| - 1]);
  }

  lemma BracketIsNoSpace()
    ensures !IsSpace(']')
  {
  }

  lemma BeforeTheSpace(x: string, c: char, head: string, after: string)
    requires x + [c] == head + "]" + after && c != ']'
    ensures after != "" && x == head + "]" + after[..|after| - 1]
  {
    var text := x + [c];
    assert text[|x|] == c && text[|head|] == ']' && |text| == |head| + 1 + |after|;
    assert x == text[..|x|];
  }

  lemma {:induction false} NoHeadSpace(x: string, c: char, atStart: bool)
    requires NoHead(x, atStart) && IsSpace(c)
    ensures NoHead(x + [c], atStart)
    decreases |x|
  {
    if x == "" {
      EmptyIsNoHead();
      if HeadStart("" + [c]) {
        SpaceIsNoHead("", c);
      }
      assert "" + [c] == [c] && [c][1..] == "";
    } else {
      if HeadStart(x + [c]) {
        SpaceIsNoHead(x, c);
      }
      hide HeadStart, IsSpace;
      assert (x + [c])[1..] == x[1..] + [c];
      NoHeadSpace(x[1..], c, x[0] == '\n');
    }
  }

  lemma {:induction false} TrimmingHidesNoHead(x: string, atStart: bool)
    requires NoHead(TrimRight(x), atStart)
    ensures NoHead(x, atStart)
    decreases |x|
  {
    if x != "" && IsSpace(x[|x| - 1]) {
      TrimmingHidesNoHead(x[..|x| - 1], atStart);
      NoHeadSpace(x[..|x| - 1], x[|x| - 1], atStart);
      assert x[..|x| - 1] + [x[|x| - 1]] == x;
    }
  }

  lemma {:induction false} StrippingHidesNoHead(x: string)
    requires NoHead(StripNewlines(x), true)
    ensures NoHead(x, true)
  {
    if x != "" && x[0] == '\n' {
      StrippingHidesNoHead(x[1..]);
    }
  }

  lemma HeadShowsInBody(x: string)
    ensures NoHead(Body(x), true) <==> NoHead(x, true)
  {
    if NoHead(Body(x), true) {
      TrimmingHidesNoHead(StripNewlines(x), true);
      StrippingHidesNoHead(x);
    }
    if NoHead(x, true) {
      StrippedFromStart(x);
      TrimmedHasNoHead(StripNewlines(x), true);
    }
  }

  // ------------------------------------------------------------- untitled headings

  lemma RenderedFrom(key: string, title: string, body: string)
    ensures RenderSection(key, title, body) == OPEN + key + "]" + TrimRight(" " + title + "\n" + body)
  {
    var head := OPEN + key + "]";
    RenderedParts(key, title, body);
    TrimRightJoin(head, " " + title + "\n" + body);
    BracketIsNoSpace();
    assert head[|head| - 1] == ']';
    hide IsSpace;
    assert TrimRight(head) == head;
    hide TrimRight;
    assert head + "" == head;
  }

  lemma RenderedParts(key: string, title: string, body: string)
    ensures OPEN + key + "] " + title + "\n" + body == OPEN + key + "]" + (" " + title + "\n" + body)
  {
    assert "] " == "]" + " ";
  }

  lemma {:induction false} TrimLeftFinds(x: string, i: nat)
    requires i < |x| && !IsSpace(x[i])
    ensures TrimLeft(x) != ""
  {
    if IsSpace(x[0]) {
      TrimLeftFinds(x[1..], i - 1);
    }
  }

  lemma SomeTitle(after: string)
    requires TrimLeft(after) != ""
    ensures TitleAndRest(after).0 != ""
  {
    TrimLeftFacts(after);
    var r := TrimLeft(after);
    var line := r[..LineEnd(r)];
    NewlineIsSpace();
    hide IsSpace;
    assert line == [r[0]] + line[1..];
    TrimRightJoin([r[0]], line[1..]);
    assert TrimRight([r[0]]) == [r[0]];
  }

  /** Whatever follows an untitled heading and is not blank gives it a title. */
  lemma UntitledTakesATitle(key: string, after: string, i: nat)
    requires GoodKey(key) && i < |after| && !IsSpace(after[i])
    ensures
      var sections := Sections(OPEN + key + "]" + after, true);
      sections != [] && sections[0].title != ""
  {
    TrimLeftFinds(after, i);
    SomeTitle(after);
    hide TrimLeft, TitleAndRest, NextHead, Body, GoodKey, Anchor, IsSpace;
    RenderedHead(key, after);
  }

  lemma UntitledAlone(key: string)
    requires GoodKey(key)
    ensures Sections(OPEN + key + "]" + "\n", true) == [Section(key, "", "")]
  {
    NewlineIsSpace();
    assert TrimLeft("\n") == "";
    assert TitleAndRest("\n") == ("", "");
    hide TrimLeft, TitleAndRest, GoodKey, Anchor, IsSpace;
    RenderedHead(key, "\n");
  }

  // ------------------------------------------------------------- all the sections

  lemma StartsWithHead(sections: seq<Section>)
    requires sections != [] && forall s :: s in sections ==> Shaped(s)
    ensures HeadStart(Join(Parts(sections)) + "\n")
  {
    var s, rest := sections[0], sections[1..];
    assert s in sections;
    ConsSections(sections);
    RenderedFrom(s.key, s.title, s.body);
    var tail := TrimRight(" " + s.title + "\n" + s.body);
    hide *;
    JoinCons(RenderSection(s.key, s.title, s.body), Parts(rest));
    Regroup(OPEN + s.key + "]", tail, "\n", "");
    Regroup(OPEN + s.key + "]", tail, "\n\n", Join(Parts(rest)) + "\n");
    var more := if Parts(rest) == [] then "\n" + "" else "\n\n" + (Join(Parts(rest)) + "\n");
    HeadThen(s, tail + more);
  }

  lemma Regroup(head: string, tail: string, gap: string, more: string)
    ensures head + tail + gap + more == head + (tail + (gap + more))
  {
  }

  lemma HeadThen(s: Section, after: string)
    requires Shaped(s)
    ensures HeadStart(OPEN + s.key + "]" + after)
  {
    RenderedHead(s.key, after);
  }

  lemma ReadableCons(s: Section, rest: seq<Section>)
    ensures Readable([s] + rest) <==>
            && NoHead(s.body, true) && (s.title != "" || (rest == [] && TrimRight(s.body) == ""))
            && Readable(rest)
  {
    var all := [s] + rest;
    assert all[0] == s;
    assert forall i :: 0 <= i < |rest| ==> all[i + 1] == rest[i];
    if Readable(all) {
      forall i | 0 <= i < |rest|
        ensures NoHead(rest[i].body, true)
        ensures rest[i].title != "" || (i == |rest| - 1 && TrimRight(rest[i].body) == "")
      {
        assert all[i + 1] == rest[i];
      }
    }
  }

  /** An untitled heading is read back only when nothing follows it. */
  lemma UntitledSection(s: Section, gap: string, rest: string)
    requires Shaped(s) && s.title == "" && ((rest == "" && gap == "\n") || (HeadStart(rest) && gap == "\n\n"))
    ensures
      var sections := Sections(RenderSection(s.key, s.title, s.body) + gap + rest, true);
      if rest == "" && TrimRight(s.body) == "" then sections == [s.(body := Body(s.body))]
      else sections != [] && sections[0].title != ""
  {
    var shown := TrimRight(s.body);
    var tail := if shown == "" then "" else " \n" + shown;
    UntitledTail(s.key, s.body);
    EmptyIsNoHead();
    TrimRightIsPrefix(s.body);
    hide RenderSection, TrimRight, Anchor, GoodKey, Sections, IsSpace;
    assert OPEN + s.key + "]" + tail + gap + rest == OPEN + s.key + "]" + (tail + gap + rest);
    if shown != "" {
      assert (tail + gap + rest)[|tail| - 1] == shown[|shown| - 1];
      UntitledTakesATitle(s.key, tail + gap + rest, |tail| - 1);
    } else if rest != "" {
      HeadIsNoSpace(rest);
      assert (tail + gap + rest)[2] == rest[0];
      UntitledTakesATitle(s.key, tail + gap + rest, 2);
    } else {
      assert tail + gap + rest == "\n";
      UntitledAlone(s.key);
      BlankBody(s.body);
    }
  }

  lemma UntitledTail(key: string, body: string)
    ensures RenderSection(key, "", body)
         == OPEN + key + "]" + if TrimRight(body) == "" then "" else " \n" + TrimRight(body)
  {
    RenderedFrom(key, "", body);
    BlankTrims();
    BlankLine(body);
    hide RenderSection, TrimRight, IsSpace;
    TrimRightJoin(" \n", body);
  }

  lemma BlankLine(body: string)
    ensures " " + "" + "\n" + body == " \n" + body
  {
    assert " " + "" + "\n" == " \n";
  }

  lemma BlankTrims()
    ensures TrimRight(" \n") == ""
  {
    NewlineIsSpace();
    assert " \n"[..1] == " " && " "[..0] == "";
  }

  lemma HeadIsNoSpace(rest: string)
    requires HeadStart(rest)
    ensures rest != "" && !IsSpace(rest[0])
  {
    assert OPEN[0] == '#';
  }

  lemma BlankBody(body: string)
    requires TrimRight(body) == ""
    ensures Body(body) == ""
  {
    StripThenTrim(body);
  }

  /** One section is read back, and those after it, exactly when it has a title and its body no heading, or nothing
      follows. */
  lemma FirstDecides(s: Section, gap: string, more: string, read: seq<Section>)
    requires Shaped(s) && ((more == "" && gap == "\n" && read == []) || (HeadStart(more) && gap == "\n\n"))
    ensures Sections(RenderSection(s.key, s.title, s.body) + gap + more, true) == [s.(body := Body(s.body))] + read
            <==> && NoHead(s.body, true) && (s.title != "" || (more == "" && TrimRight(s.body) == ""))
                 && Sections(more, true) == read
  {
    EmptySections();
    var text := RenderSection(s.key, s.title, s.body) + gap + more;
    var first := s.(body := Body(s.body));
    hide RenderSection, Anchor, TrimRight, GoodKey, IsSpace, NoHead, Sections, Body;
    assert ([first] + read)[0] == first;
    if !NoHead(s.body, true) {
      if Sections(text, true) != [] {
        FirstBodyHasNoHead(text, s);
      }
    } else if s.title != "" {
      OneSection(s, gap, more);
      SameTail(first, Sections(more, true), read);
    } else {
      UntitledSection(s, gap, more);
    }
  }

  lemma SameTail<T>(x: T, a: seq<T>, b: seq<T>)
    ensures [x] + a == [x] + b <==> a == b
  {
    if [x] + a == [x] + b {
      assert a == ([x] + a)[1..] && b == ([x] + b)[1..];
    }
  }

  /** What is written is read back, the bodies stripped, exactly when it is readable. */
  lemma {:induction false} SectionsReadBackExactly(sections: seq<Section>)
    requires sections != [] && forall s :: s in sections ==> Shaped(s)
    ensures Sections(Join(Parts(sections)) + "\n", true) == AsRead(sections) <==> Readable(sections)
  {
    var s, rest := sections[0], sections[1..];
    assert s in sections && sections == [s] + rest;
    assert forall r :: r in rest ==> r in sections;
    ConsSections(sections);
    ReadableCons(s, rest);
    EmptySections();
    JoinCons(RenderSection(s.key, s.title, s.body), Parts(rest));
    hide RenderSection, Anchor, TrimRight, GoodKey, Join, Parts, IsSpace, NoHead, Sections, Body, AsRead, Shaped, HeadStart;
    if rest == [] {
      FirstDecides(s, "\n", "", []);
      NothingIsReadable();
    } else {
      StartsWithHead(rest);
      HeadIsNoSpace(Join(Parts(rest)) + "\n");
      SectionsReadBackExactly(rest);
      FirstDecides(s, "\n\n", Join(Parts(rest)) + "\n", AsRead(rest));
    }
  }

  lemma NothingIsReadable()
    ensures Readable([])
  {
  }

  lemma FirstBodyHasNoHead(text: string, s: Section)
    requires !NoHead(s.body, true) && Sections(text, true) != []
    ensures Sections(text, true)[0] != s.(body := Body(s.body))
  {
    SectionsAreGood(text, true);
    HeadShowsInBody(s.body);
    hide Sections, Body, NoHead;
    assert Sections(text, true)[0] in Sections(text, true);
  }

  // --------------------------------------------------------------------- a merge

  /** What can be checked of a template and the detected content before a merge: no detected body has a heading, and each
      heading of the template has a title, but for the last when its body will be blank. */
  predicate Mergeable(template: seq<Section>, auto: map<string, string>, existing: seq<Section>) {
    forall i :: 0 <= i < |template| ==>
      && (template[i].key in auto ==> NoHead(auto[template[i].key], true))
      && (template[i].title != ""
          || (i == |template| - 1 && TrimRight(BodyFor(template[i].key, auto, existing)) == ""))
  }

  lemma MergeableIsReadable(template: string, existing: string, auto: map<string, string>)
    ensures Mergeable(Sections(template, true), auto, Sections(existing, true))
       <==> Readable(Filled(Sections(template, true), auto, Sections(existing, true)))
    ensures forall s :: s in Filled(Sections(template, true), auto, Sections(existing, true)) ==> Shaped(s)
  {
    SectionsAreGood(template, true);
    var sections, found := Sections(template, true), Sections(existing, true);
    var filled := Filled(sections, auto, found);
    hide Sections, NoHead, GoodKey, IsSpace, Body, BodyFor;
    assert |filled| == |sections|;
    forall i | 0 <= i < |sections|
      ensures Shaped(filled[i]) && filled[i].title == sections[i].title
      ensures filled[i].body == BodyFor(sections[i].key, auto, found)
      ensures NoHead(filled[i].body, true) <==> (sections[i].key in auto ==> NoHead(auto[sections[i].key], true))
    {
      assert GoodSection(sections[i]);
      ChosenIsDetectedOrPlain(sections[i].key, auto, existing);
    }
  }

  lemma ChosenIsDetectedOrPlain(key: string, auto: map<string, string>, existing: string)
    ensures key in auto ==> BodyFor(key, auto, Sections(existing, true)) == auto[key]
    ensures key !in auto ==> NoHead(BodyFor(key, auto, Sections(existing, true)), true)
  {
    if key !in auto {
      ChosenBody(key, auto, existing);
    }
  }

  /** A merged document is read as the template's sections with the chosen bodies exactly when it is mergeable. */
  lemma MergedSectionsExactly(template: string, existing: string, auto: map<string, string>, autoOnly: string)
    requires Sections(template, true) != []
    ensures Sections(MergedBody(template, existing, auto, autoOnly), true)
            == AsRead(Filled(Sections(template, true), auto, Sections(existing, true)))
       <==> Mergeable(Sections(template, true), auto, Sections(existing, true))
  {
    PreambleAddsNone(template, existing, auto, autoOnly);
    MergeableIsReadable(template, existing, auto);
    SectionsReadBackExactly(Filled(Sections(template, true), auto, Sections(existing, true)));
  }

  /** Merging a document with itself changes nothing. */
  lemma MergeBodyIsIdempotent(template: string, existing: string, auto: map<string, string>, autoOnly: string)
    requires Mergeable(Sections(template, true), auto, Sections(existing, true))
    ensures
      var merged := MergedBody(template, existing, auto, autoOnly);
      MergedBody(template, merged, auto, autoOnly) == merged
  {
    var sections := Sections(template, true);
    if sections != [] {
      var merged := MergedBody(template, existing, auto, autoOnly);
      MergedSectionsExactly(template, existing, auto, autoOnly);
      forall i | 0 <= i < |sections|
        ensures BodyFor(sections[i].key, auto, Sections(merged, true))
             == BodyFor(sections[i].key, auto, Sections(existing, true))
      {
        if sections[i].key !in auto {
          KeptBody(sections, existing, auto, i);
        }
      }
      hide BodyFor, Sections;
      assert Filled(sections, auto, Sections(merged, true)) == Filled(sections, auto, Sections(existing, true));
    }
  }

  /** Every section of the template that is not detected anew keeps the body it had. */
  lemma MergeKeepsBodies(template: string, existing: string, auto: map<string, string>, autoOnly: string, i: nat)
    requires Mergeable(Sections(template, true), auto, Sections(existing, true))
    requires i < |Sections(template, true)| && Sections(template, true)[i].key !in auto
    ensures
      var key := Sections(template, true)[i].key;
      var before := Lookup(Sections(existing, true), key);
      Lookup(Sections(MergedBody(template, existing, auto, autoOnly), true), key)
      == if before.Some? then before else Some(TODO)
  {
    MergedSectionsExactly(template, existing, auto, autoOnly);
    KeptBody(Sections(template, true), existing, auto, i);
  }

  lemma MergedTextIsStable(template: string, body: string, auto: map<string, string>, autoOnly: string, overwrite: bool)
    requires overwrite ==> Mergeable(Sections(ParseFront(template).1, true), auto, Sections(body, true))
    ensures
      var text := MergedText(template, body, auto, autoOnly, overwrite);
      MergedText(template, text, auto, autoOnly, overwrite) == text
  {
    if overwrite {
      MergeBodyIsIdempotent(ParseFront(template).1, body, auto, autoOnly);
    } else {
      StripNewlinesFacts(body);
    }
  }

  /** Merging a file with its own output on the same date changes nothing. */
  lemma MergeFileIsIdempotent(template: string, existing: Option<string>, auto: map<string, string>, autoOnly: string,
                              overwrite: bool, today: string, author: string)
    requires GoodValue(today) && GoodValue(author)
    requires
      var body := ParseFront(if existing.Some? then existing.value else template).1;
      overwrite ==> Mergeable(Sections(ParseFront(template).1, true), auto, Sections(body, true))
    ensures
      var merged := MergeFile(template, existing, auto, autoOnly, overwrite, today, author);
      MergeFile(template, Some(merged), auto, autoOnly, overwrite, today, author) == merged
  {
    var (fm, body) := ParseFront(if existing.Some? then existing.value else template);
    ParsedFrontIsGood(if existing.Some? then existing.value else template);
    hide ParseFront, RenderFront, Stamp, GoodFront, GoodValue, MergedText, Sections, Mergeable;
    StampIsGood(fm, today, author);
    StampIsStable(fm, today, author);
    MergedTextIsStable(template, body, auto, autoOnly, overwrite);
    FrontReadsBack(Stamp(fm, today, author), MergedText(template, body, auto, autoOnly, overwrite));
  }

  // -------------------------------------------------------------- detected content

  function Lines(items: seq<string>): string {
    if items == [] then "" else if |items| == 1 then items[0] else items[0] + "\n" + Lines(items[1..])
  }

  function Bullets(items: seq<string>): string {
    if items == [] then "(none detected)"
    else Lines(seq(|items|, i requires 0 <= i < |items| => "- " + items[i]))
  }

  predicate NoNewlines(items: seq<string>) {
    forall x :: x in items ==> '\n' !in x
  }

  lemma {:induction false} OneLine(x: string)
    requires '\n' !in x
    ensures NoHead(x, false) && NoHead(x + "\n", false)
    ensures NoHead(x, true) <==> !HeadStart(x)
    ensures NoHead(x + "\n", true) <==> !HeadStart(x + "\n")
  {
    hide Anchor;
    EmptyIsNoHead();
    if x == "" {
      assert x + "\n" == "\n" && "\n"[1..] == "";
      HeadOfNewline();
    } else {
      OneLine(x[1..]);
      assert (x + "\n")[1..] == x[1..] + "\n";
    }
  }

  lemma HeadOfNewline()
    ensures !HeadStart("\n")
  {
  }

  lemma NoHeadJoin(x: string, y: string)
    requires '\n' !in x
    ensures NoHead(x + "\n" + y, true) <==> !HeadStart(x) && NoHead(y, true)
  {
    hide HeadStart, NoHead;
    OneLine(x);
    NewlineIsNoHead(x);
    EndsALine(x, y);
    if HeadStart(x) {
      HeadOfPrefix(x, "\n" + y);
      HeadRefutes(x + "\n" + y);
    } else {
      AfterLine(x + "\n", y, true);
    }
  }

  lemma EndsALine(x: string, y: string)
    ensures x + "\n" != "" && (x + "\n")[|x + "\n"| - 1] == '\n' && x + ("\n" + y) == x + "\n" + y
  {
  }

  lemma HeadRefutes(text: string)
    requires HeadStart(text)
    ensures !NoHead(text, true)
  {
    EmptyIsNoHead();
    hide HeadStart;
  }

  /** After a whole line that is no heading, what follows decides. */
  lemma {:induction false} AfterLine(x: string, y: string, atStart: bool)
    requires x != "" && x[|x| - 1] == '\n' && NoHead(x, atStart)
    ensures NoHead(x + y, atStart) <==> NoHead(y, true)
    decreases |x|
  {
    hide Anchor;
    HeadStaysInside(x, y);
    assert (x + y)[1..] == x[1..] + y;
    if |x| == 1 {
      assert x[1..] + y == y;
    } else {
      AfterLine(x[1..], y, x[0] == '\n');
    }
  }

  /** Content made line by line has no heading exactly when no line is one. */
  lemma {:induction false} LinesWithoutHeading(items: seq<string>)
    requires NoNewlines(items)
    ensures NoHead(Lines(items), true) <==> forall x :: x in items ==> !HeadStart(x)
  {
    hide HeadStart;
    if |items| == 1 {
      OneLine(items[0]);
      assert items == [items[0]];
    } else if items != [] {
      assert items == [items[0]] + items[1..];
      LinesWithoutHeading(items[1..]);
      NoHeadJoin(items[0], Lines(items[1..]));
    }
  }

  /** So the detected lists are always mergeable. */
  lemma BulletsHaveNoHeading(items: seq<string>)
    requires NoNewlines(items)
    ensures NoHead(Bullets(items), true)
  {
    if items == [] {
      NoneDetected();
    } else {
      var lines := seq(|items|, i requires 0 <= i < |items| => "- " + items[i]);
      hide HeadStart, NoHead, Lines;
      forall x | x in lines ensures '\n' !in x && !HeadStart(x) {
        var i :| 0 <= i < |lines| && lines[i] == x;
        assert items[i] in items;
        OneBullet(items[i]);
      }
      LinesWithoutHeading(lines);
    }
  }

  lemma OneBullet(item: string)
    requires '\n' !in item
    ensures '\n' !in "- " + item && !HeadStart("- " + item)
  {
    assert OPEN[0] == '#' && ("- " + item)[0] == '-';
  }

  lemma NoneDetected()
    ensures NoHead("(none detected)", true)
  {
    assert OPEN[0] == '#';
    assert Printable("(none detected)");
    OneLine("(none detected)");
  }

  // --------------------------------------------- a detected heading that takes over

  /** A word as a body: one line, nothing to strip. */
  predicate Word(x: string) {
    x != "" && '\n' !in x && x[0] != '#' && !IsSpace(x[0]) && !IsSpace(x[|x| - 1])
  }

  lemma WordsArePlain(x: string)
    requires Word(x)
    ensures NoHead(x, true) && Body(x) == x && TrimRight(x) == x
  {
    OneLine(x);
    assert OPEN[0] == '#';
    assert StripNewlines(x) == x;
  }

  /** One section whose detected body goes on with a heading is read as two. */
  lemma TwoInOne(b: string, a: string, x: string, y: string)
    requires GoodKey(a) && GoodKey(b) && Word(x) && Word(y)
    ensures Sections(RenderSection(b, "B", x + "\n" + RenderSection(a, "A", y)) + "\n", true)
         == [Section(b, "B", x), Section(a, "A", y)]
  {
    WordSection(b, "B", x);
    WordSection(a, "A", y);
    EmptySections();
    Tucked(b, a, x, y);
    hide *;
    var more := RenderSection(a, "A", y) + "\n";
    assert more == RenderSection(a, "A", y) + "\n" + "";
    OneSection(Section(a, "A", y), "\n", "");
    OneSection(Section(b, "B", x), "\n", more);
  }

  lemma WordSection(key: string, title: string, x: string)
    requires GoodKey(key) && Word(x) && (title == "A" || title == "B")
    ensures Writable(Section(key, title, x)) && Section(key, title, x).(body := Body(x)) == Section(key, title, x)
  {
    WordsArePlain(x);
    assert !IsSpace('A') && !IsSpace('B');
  }

  lemma Tucked(b: string, a: string, x: string, y: string)
    requires Word(y) && Word(x)
    ensures RenderSection(b, "B", x + "\n" + RenderSection(a, "A", y)) + "\n"
         == RenderSection(b, "B", x) + "\n" + (RenderSection(a, "A", y) + "\n")
  {
    var inner := RenderSection(a, "A", y);
    EndsWithWord(OPEN + a + "] " + "A" + "\n", y);
    EndsWithWord(OPEN + b + "] " + "B" + "\n", x);
    assert inner == OPEN + a + "] " + "A" + "\n" + y;
    EndsWithWord(OPEN + b + "] " + "B" + "\n" + x + "\n" + (OPEN + a + "] " + "A" + "\n"), y);
    assert OPEN + b + "] " + "B" + "\n" + (x + "\n" + inner)
        == OPEN + b + "] " + "B" + "\n" + x + "\n" + (OPEN + a + "] " + "A" + "\n") + y;
  }

  lemma EndsWithWord(head: string, y: string)
    requires Word(y)
    ensures TrimRight(head + y) == head + y
  {
    TrimRightJoin(head, y);
    WordsArePlain(y);
  }

  /** A document of two sections, `a` before `b`. */
  function Pair(a: string, x: string, b: string, y: string): seq<Section> {
    [Section(a, "A", x), Section(b, "B", y)]
  }

  function Written(sections: seq<Section>): string {
    Join(Parts(sections)) + "\n"
  }

  lemma PairReadsBack(a: string, x: string, b: string, y: string)
    requires GoodKey(a) && GoodKey(b) && Word(x) && Word(y)
    ensures Sections(Written(Pair(a, x, b, y)), true) == Pair(a, x, b, y)
  {
    WordSection(a, "A", x);
    WordSection(b, "B", y);
    PairAsRead(a, x, b, y);
    hide Sections, Writable, Body, GoodKey, Join, Word, Parts, AsRead;
    SectionsReadBack(Pair(a, x, b, y));
  }

  lemma PairAsRead(a: string, x: string, b: string, y: string)
    requires Word(x) && Word(y)
    ensures AsRead(Pair(a, x, b, y)) == Pair(a, x, b, y)
  {
    WordsArePlain(x);
    WordsArePlain(y);
    hide Body, Word;
  }

  lemma PairWithStray(a: string, x: string, b: string, y: string, z: string)
    requires GoodKey(a) && GoodKey(b) && Word(x) && Word(y) && Word(z)
    ensures Sections(Written(Pair(a, x, b, y + "\n" + RenderSection(a, "A", z))), true)
         == [Section(a, "A", x), Section(b, "B", y), Section(a, "A", z)]
  {
    var inner := y + "\n" + RenderSection(a, "A", z);
    var last := Section(b, "B", inner);
    WordSection(a, "A", x);
    TwoInOne(b, a, y, z);
    WrittenOne(last);
    WrittenTwo(Section(a, "A", x), last);
    ShapedB(last);
    StartsWithHead([last]);
    hide *;
    OneSection(Section(a, "A", x), "\n\n", RenderSection(b, "B", inner) + "\n");
  }

  lemma ShapedB(s: Section)
    requires GoodKey(s.key) && s.title == "B"
    ensures Shaped(s) && forall r :: r in [s] ==> Shaped(r)
  {
    assert !IsSpace('B');
  }

  lemma WrittenOne(s: Section)
    ensures Join(Parts([s])) + "\n" == RenderSection(s.key, s.title, s.body) + "\n"
  {
    hide RenderSection;
    assert Parts([s]) == [RenderSection(s.key, s.title, s.body)];
  }

  lemma WrittenTwo(s: Section, r: Section)
    ensures Written([s, r])
         == RenderSection(s.key, s.title, s.body) + "\n\n" + (RenderSection(r.key, r.title, r.body) + "\n")
  {
    hide RenderSection;
    var first, second := RenderSection(s.key, s.title, s.body), RenderSection(r.key, r.title, r.body);
    assert Parts([s, r]) == [first, second] && [first, second] == [first] + [second];
    JoinCons(first, [second]);
  }

  lemma NoPreamble(sections: seq<Section>)
    requires sections != [] && Sections(Written(sections), true) == sections && HeadStart(Written(sections))
    ensures Preamble(Written(sections), sections[0].key) == ""
  {
    var text := Written(sections);
    assert text[0..] == text;
    FirstSection(text, true);
    assert NextHead(text, true) == 0;
    HeadIsFound(text, 0);
    hide Sections, Find, Anchor, TrimRight, NextHead;
  }

  lemma MergedPair(a: string, b: string, template: string, existing: string, auto: map<string, string>)
    requires GoodKey(a) && GoodKey(b) && a !in auto && b in auto && template == Written(Pair(a, "x", b, "x"))
    requires Lookup(Sections(existing, true), a).Some?
    ensures MergedBody(template, existing, auto, "")
         == Written(Pair(a, Lookup(Sections(existing, true), a).value, b, auto[b]))
  {
    TheWords();
    hide *;
    PairReadsBack(a, "x", b, "x");
    PairStartsWithHead(a, "x", b, "x");
    PairIsNotEmpty(a, "x", b, "x");
    NoPreamble(Pair(a, "x", b, "x"));
    FilledPair(a, b, auto, Sections(existing, true));
    WithoutPreamble(template, existing, auto);
  }

  lemma PairIsNotEmpty(a: string, x: string, b: string, y: string)
    ensures Pair(a, x, b, y) != [] && Pair(a, x, b, y)[0].key == a
  {
  }

  lemma PairStartsWithHead(a: string, x: string, b: string, y: string)
    requires GoodKey(a) && GoodKey(b) && Word(x) && Word(y)
    ensures HeadStart(Written(Pair(a, x, b, y)))
  {
    WordSection(a, "A", x);
    WordSection(b, "B", y);
    hide Sections, Writable, Body, GoodKey, Join, Word, Parts, HeadStart;
    SectionsReadBack(Pair(a, x, b, y));
  }

  lemma FilledPair(a: string, b: string, auto: map<string, string>, found: seq<Section>)
    requires a !in auto && b in auto && Lookup(found, a).Some?
    ensures Filled(Pair(a, "x", b, "x"), auto, found) == Pair(a, Lookup(found, a).value, b, auto[b])
  {
    hide Lookup;
  }

  lemma WithoutPreamble(template: string, existing: string, auto: map<string, string>)
    requires Sections(template, true) != [] && Preamble(template, Sections(template, true)[0].key) == ""
    ensures MergedBody(template, existing, auto, "")
         == Written(Filled(Sections(template, true), auto, Sections(existing, true)))
  {
    hide Sections, Preamble, Join, Filled, Parts;
    assert forall p: seq<string> :: [] + p == p;
  }

  lemma LookupOfLast(sections: seq<Section>, s: Section)
    ensures Lookup(sections + [s], s.key) == Some(s.body)
  {
    assert (sections + [s])[..|sections|] == sections;
  }

  /** Detected content that goes on with a heading of its own. */
  function Stray(a: string): string {
    "x" + "\n" + RenderSection(a, "A", "theirs")
  }

  /** Without that condition the user's text can be lost: a heading in detected content shadows the user's section of
      the same key, and the next merge writes the detected text over the user's. */
  lemma StrayHeadingReplacesABody(a: string, b: string, template: string, existing: string, once: string)
    requires GoodKey(a) && GoodKey(b) && a != b
    requires template == Written(Pair(a, "x", b, "x")) && existing == Written(Pair(a, "mine", b, "x"))
    requires once == MergedBody(template, existing, map[b := Stray(a)], "")
    ensures Lookup(Sections(existing, true), a) == Some("mine")
    ensures once == Written(Pair(a, "mine", b, Stray(a))) && Lookup(Sections(once, true), a) == Some("theirs")
    ensures MergedBody(template, once, map[b := Stray(a)], "") == Written(Pair(a, "theirs", b, Stray(a)))
  {
    TheWords();
    StrayIsRead(a, b);
    LookupFirst(a, "mine", b, "x");
    hide *;
    PairReadsBack(a, "mine", b, "x");
    MergedPair(a, b, template, existing, map[b := Stray(a)]);
    MergedPair(a, b, template, once, map[b := Stray(a)]);
  }

  lemma StrayIsRead(a: string, b: string)
    requires GoodKey(a) && GoodKey(b)
    ensures Lookup(Sections(Written(Pair(a, "mine", b, Stray(a))), true), a) == Some("theirs")
  {
    TheWords();
    LookupStray(a, b);
    hide Word, Sections, Written, Pair, Lookup, GoodKey, RenderSection;
    PairWithStray(a, "mine", b, "x", "theirs");
  }

  lemma TheWords()
    ensures Word("x") && Word("mine") && Word("theirs")
  {
  }

  lemma LookupStray(a: string, b: string)
    ensures Lookup([Section(a, "A", "mine"), Section(b, "B", "x"), Section(a, "A", "theirs")], a) == Some("theirs")
  {
    LookupOfLast([Section(a, "A", "mine"), Section(b, "B", "x")], Section(a, "A", "theirs"));
    assert [Section(a, "A", "mine"), Section(b, "B", "x")] + [Section(a, "A", "theirs")]
        == [Section(a, "A", "mine"), Section(b, "B", "x"), Section(a, "A", "theirs")];
  }

  lemma LookupFirst(a: string, x: string, b: string, y: string)
    requires a != b
    ensures Lookup(Pair(a, x, b, y), a) == Some(x)
  {
    assert Pair(a, x, b, y)[..1] == [Section(a, "A", x)];
    LookupOfLast([], Section(a, "A", x));
  }
}
