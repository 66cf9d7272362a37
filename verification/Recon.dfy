/** Codebase documents: front matter and anchored sections, merged with freshly detected content. */
module Recon {
  import opened Prelude
  import opened TextLines

  // -------------------------------------------------------------------- small strings

  function TrimLeft(text: string): string {
    if text != "" && IsSpace(text[0]) then TrimLeft(text[1..]) else text
  }

  function TrimRight(text: string): string {
    if text != "" && IsSpace(text[|text| - 1]) then TrimRight(text[..|text| - 1]) else text
  }

  function StripNewlines(text: string): string {
    if text != "" && text[0] == '\n' then StripNewlines(text[1..]) else text
  }

  lemma {:induction false} TrimRightIsPrefix(text: string)
    ensures TrimRight(text) <= text
    ensures TrimRight(text) != "" ==> !IsSpace(TrimRight(text)[|TrimRight(text)| - 1])
    ensures TrimRight(TrimRight(text)) == TrimRight(text)
  {
    if text != "" && IsSpace(text[|text| - 1]) {
      TrimRightIsPrefix(text[..|text| - 1]);
    }
  }

  lemma {:induction false} TrimRightJoin(a: string, b: string)
    ensures TrimRight(a + b) == if TrimRight(b) == "" then TrimRight(a) else a + TrimRight(b)
  {
    hide IsSpace;
    if b == "" {
      assert a + b == a;
    } else if IsSpace(b[|b| - 1]) {
      TrimRightJoin(a, b[..|b| - 1]);
      assert (a + b)[..|a + b| - 1] == a + b[..|b| - 1];
    } else {
      assert TrimRight(a + b) == a + b;
    }
  }

  // ------------------------------------------------------------------------- anchors

  predicate WordChar(c: char) {
    'a' <= c <= 'z' || c == '_'
  }

  function WordLength(text: string): (n: nat)
    ensures n <= |text|
    ensures forall i :: 0 <= i < n ==> WordChar(text[i])
    ensures n < |text| ==> !WordChar(text[n])
  {
    if text != "" && WordChar(text[0]) then 1 + WordLength(text[1..]) else 0
  }

  const OPEN := "## [codebase."

  /** Where the closing bracket stands after a dotted pair of words. */
  function KeyEnd(text: string): (k: Option<nat>)
    ensures k.Some? ==> k.value < |text| && text[k.value] == ']'
  {
    var n := WordLength(text);
    if n == 0 || n >= |text| || text[n] != '.' then None else
    var m := WordLength(text[n + 1..]);
    var k := n + 1 + m;
    if m == 0 || k >= |text| || text[k] != ']' then None else Some(k)
  }

  /** A dotted pair of words up to a closing bracket, and what follows the bracket. */
  function Key(text: string): (r: Option<(string, string)>)
    ensures r.Some? ==> text == r.value.0 + "]" + r.value.1
  {
    var k := KeyEnd(text);
    if k.None? then None else Some((text[..k.value], text[k.value + 1..]))
  }

  /** The anchor of a heading at the beginning of a text, without its `codebase.`, and what follows the bracket. */
  function Anchor(text: string): Option<(string, string)> {
    if OPEN <= text then Key(text[|OPEN|..]) else None
  }

  predicate HeadStart(text: string) {
    Anchor(text).Some?
  }

  /** What an anchor may be. */
  predicate GoodKey(key: string) {
    Key(key + "]") == Some((key, ""))
  }

  lemma {:induction false} WordLengthJoin(a: string, b: string)
    ensures WordLength(a) < |a| ==> WordLength(a + b) == WordLength(a)
    ensures WordLength(a + b) < |a| ==> WordLength(a) == WordLength(a + b)
  {
    if a != "" && WordChar(a[0]) {
      assert (a + b)[1..] == a[1..] + b;
      WordLengthJoin(a[1..], b);
    } else if a == "" {
      assert a + b == b;
    }
  }

  lemma KeyEndIsLocal(a: string, b: string)
    requires KeyEnd(a).Some? || (KeyEnd(a + b).Some? && KeyEnd(a + b).value < |a|)
    ensures KeyEnd(a + b) == KeyEnd(a)
  {
    hide WordChar, WordLength;
    var text := a + b;
    WordLengthJoin(a, b);
    var n := WordLength(text);
    assert n < |a|;
    assert text[n + 1..] == a[n + 1..] + b;
    WordLengthJoin(a[n + 1..], b);
  }

  /** Whether a key is found depends on no more than the key and its bracket. */
  lemma KeyIsLocal(a: string, b: string)
    ensures Key(a).Some? ==> Key(a + b) == Some((Key(a).value.0, Key(a).value.1 + b))
    ensures Key(a + b).Some? && |Key(a + b).value.0| < |a| ==> Key(a).Some? && Key(a).value.0 == Key(a + b).value.0
  {
    hide KeyEnd;
    if Key(a).Some? || (Key(a + b).Some? && |Key(a + b).value.0| < |a|) {
      KeyEndIsLocal(a, b);
      var k := KeyEnd(a).value;
      assert (a + b)[..k] == a[..k] && (a + b)[k + 1..] == a[k + 1..] + b;
    }
  }

  lemma KeyHasNoNewline(text: string)
    requires Key(text).Some?
    ensures '\n' !in Key(text).value.0
  {
    var n := WordLength(text);
    var k := n + 1 + WordLength(text[n + 1..]);
    forall i | 0 <= i < k ensures text[i] != '\n' {
      if i > n {
        assert text[i] == text[n + 1..][i - n - 1];
      }
    }
  }

  /** A heading is recognised whatever follows its bracket. */
  lemma RenderedHead(key: string, after: string)
    requires GoodKey(key)
    ensures Anchor(OPEN + key + "]" + after) == Some((key, after))
  {
    hide Key;
    KeyIsLocal(key + "]", after);
    var text := OPEN + key + "]" + after;
    assert text[|OPEN|..] == key + "]" + after;
    assert "" + after == after;
  }

  lemma FoundKeyIsGood(text: string)
    requires HeadStart(text)
    ensures GoodKey(Anchor(text).value.0) && text == OPEN + Anchor(text).value.0 + "]" + Anchor(text).value.1
  {
    var rest := text[|OPEN|..];
    var (key, after) := Key(rest).value;
    hide Key;
    assert text == OPEN + rest;
    KeyOfKey(rest);
  }

  lemma KeyOfKey(rest: string)
    requires Key(rest).Some?
    ensures GoodKey(Key(rest).value.0)
  {
    var (key, after) := Key(rest).value;
    KeyIsLocal(key + "]", after);
    hide KeyEnd;
    assert rest == (key + "]") + after;
    GoodFromPrefix(key);
  }

  lemma GoodFromPrefix(key: string)
    requires Key(key + "]").Some? && Key(key + "]").value.0 == key
    ensures GoodKey(key)
  {
  }

  lemma OpenIsOneLine()
    ensures '\n' !in OPEN
  {
    assert Printable(OPEN);
  }

  lemma BeforeNewline(head: string, text: string, m: nat)
    requires head <= text && '\n' !in head && m < |text| && text[m] == '\n'
    ensures |head| <= m
  {
    assert forall i :: 0 <= i < |head| ==> head[i] == text[i] && head[i] in head;
  }

  /** A heading that starts in whole lines lies in them. */
  lemma HeadStaysInside(a: string, b: string)
    requires a != "" && a[|a| - 1] == '\n'
    ensures HeadStart(a + b) <==> HeadStart(a)
  {
    hide Key;
    var text := a + b;
    OpenIsOneLine();
    if OPEN <= text {
      BeforeNewline(OPEN, text, |a| - 1);
      OpenInside(a, b);
      var rest := a[|OPEN|..];
      KeyIsLocal(rest, b);
      if Key(rest + b).Some? {
        KeyHasNoNewline(rest + b);
        BeforeNewline(Key(rest + b).value.0, rest + b, |rest| - 1);
      }
    } else {
      OpenOutside(a, b);
    }
  }

  lemma OpenInside(a: string, b: string)
    requires OPEN <= a + b && |OPEN| < |a|
    ensures OPEN <= a && (a + b)[|OPEN|..] == a[|OPEN|..] + b
    ensures a[|OPEN|..] != "" && a[|OPEN|..][|a[|OPEN|..]| - 1] == a[|a| - 1]
  {
    assert a == (a + b)[..|a|];
  }

  lemma OpenOutside(a: string, b: string)
    requires !(OPEN <= a + b)
    ensures !(OPEN <= a)
  {
    assert a <= a + b;
  }

  // ------------------------------------------------------------------------ sections

  datatype Section = Section(key: string, title: string, body: string)

  function LineEnd(text: string): (n: nat)
    ensures n <= |text| && (n < |text| ==> text[n] == '\n')
    ensures '\n' !in text[..n]
  {
    if text == "" || text[0] == '\n' then 0 else
      var n := LineEnd(text[1..]);
      assert text[..n + 1] == [text[0]] + text[1..][..n];
      n + 1
  }

  lemma {:induction false} TrimLeftShrinks(text: string)
    ensures |TrimLeft(text)| <= |text|
  {
    if text != "" {
      TrimLeftShrinks(text[1..]);
    }
  }

  /** The title after a heading's bracket: blanks are skipped, newlines among them, and the rest of that line taken. */
  function TitleAndRest(after: string): (r: (string, string))
    ensures |r.1| <= |after|
  {
    TrimLeftShrinks(after);
    var r := TrimLeft(after);
    (TrimRight(r[..LineEnd(r)]), r[LineEnd(r)..])
  }

  /** How far it is to the next heading at the start of a line. */
  function NextHead(text: string, atStart: bool): (n: nat)
    ensures n <= |text|
  {
    if text == "" || (atStart && HeadStart(text)) then 0 else 1 + NextHead(text[1..], text[0] == '\n')
  }

  function Body(text: string): string {
    TrimRight(StripNewlines(text))
  }

  lemma AnchorShrinks(text: string)
    requires HeadStart(text)
    ensures |Anchor(text).value.1| < |text|
  {
  }

  /** The anchored sections of a text, in order. */
  function Sections(text: string, atStart: bool): seq<Section>
    decreases |text|
  {
    if text == "" then []
    else if atStart && HeadStart(text) then
      AnchorShrinks(text);
      var (key, after) := Anchor(text).value;
      var (title, rest) := TitleAndRest(after);
      var n := NextHead(rest, false);
      [Section(key, title, Body(rest[..n]))] + Sections(rest[n..], true)
    else Sections(text[1..], text[0] == '\n')
  }

  /** No heading at the start of any line. */
  predicate NoHead(text: string, atStart: bool) {
    text == "" || (!(atStart && HeadStart(text)) && NoHead(text[1..], text[0] == '\n'))
  }

  predicate Whole(text: string) {
    text == "" || text[|text| - 1] == '\n'
  }

  /** Whole lines without a heading are passed over. */
  lemma {:induction false} PassOver(x: string, y: string, atStart: bool)
    requires NoHead(x, atStart) && Whole(x) && x != ""
    ensures NextHead(x + y, atStart) == |x| + NextHead(y, true)
    ensures Sections(x + y, atStart) == Sections(y, true)
    decreases |x|
  {
    hide Anchor;
    HeadStaysInside(x, y);
    assert (x + y)[1..] == x[1..] + y;
    if |x| == 1 {
      assert x[1..] + y == y;
    } else {
      PassOver(x[1..], y, x[0] == '\n');
    }
  }

  lemma HeadOfPrefix(x: string, y: string)
    requires HeadStart(x)
    ensures HeadStart(x + y)
  {
    hide Key;
    var rest := x[|OPEN|..];
    assert (x + y)[|OPEN|..] == rest + y;
    KeyIsLocal(rest, y);
  }

  lemma {:induction false} NoHeadPrefix(x: string, y: string, atStart: bool)
    requires NoHead(x + y, atStart)
    ensures NoHead(x, atStart)
    decreases |x|
  {
    hide Anchor;
    if x != "" {
      assert (x + y)[1..] == x[1..] + y;
      NoHeadPrefix(x[1..], y, x[0] == '\n');
      if HeadStart(x) {
        HeadOfPrefix(x, y);
      }
    }
  }

  lemma NewlineIsNoHead(x: string)
    ensures HeadStart(x + "\n") ==> HeadStart(x)
  {
    hide Key;
    var text := x + "\n";
    if HeadStart(text) {
      OpenIsOneLine();
      BeforeNewline(OPEN, text, |x|);
      var rest := x[|OPEN|..];
      assert text[|OPEN|..] == rest + "\n";
      KeyHasNoNewline(rest + "\n");
      BeforeNewline(Key(rest + "\n").value.0, rest + "\n", |rest|);
      assert (rest + "\n")[|Key(rest + "\n").value.0|] == ']';
      KeyIsLocal(rest, "\n");
    }
  }

  lemma {:induction false} NoHeadNewline(x: string, atStart: bool)
    requires NoHead(x, atStart)
    ensures NoHead(x + "\n", atStart)
    decreases |x|
  {
    hide Anchor;
    NewlineIsNoHead(x);
    if x == "" {
      EmptyIsNoHead();
      assert x + "\n" == "\n" && "\n"[1..] == "";
    } else {
      assert (x + "\n")[1..] == x[1..] + "\n";
      NoHeadNewline(x[1..], x[0] == '\n');
    }
  }

  lemma EmptyIsNoHead()
    ensures !HeadStart("")
  {
  }

  lemma {:induction false} UpToNextHead(text: string, atStart: bool)
    ensures NoHead(text[..NextHead(text, atStart)], atStart)
    ensures NextHead(text, atStart) < |text| ==> HeadStart(text[NextHead(text, atStart)..])
    decreases |text|
  {
    hide Anchor;
    var n := NextHead(text, atStart);
    if n > 0 {
      UpToNextHead(text[1..], text[0] == '\n');
      assert text[..n][1..] == text[1..][..n - 1];
      assert text[n..] == text[1..][n - 1..];
      if HeadStart(text[..n]) {
        HeadOfPrefix(text[..n], text[n..]);
        assert text == text[..n] + text[n..];
      }
    }
  }

  lemma {:induction false} StrippedHasNoHead(x: string)
    requires NoHead(x, false) && (x == "" || x[0] == '\n')
    ensures NoHead(StripNewlines(x), true)
  {
    if x != "" {
      StrippedFromStart(x[1..]);
    }
  }

  lemma {:induction false} StrippedFromStart(x: string)
    requires NoHead(x, true)
    ensures NoHead(StripNewlines(x), true)
  {
    if x != "" && x[0] == '\n' {
      StrippedFromStart(x[1..]);
    }
  }

  lemma TrimmedHasNoHead(x: string, atStart: bool)
    requires NoHead(x, atStart)
    ensures NoHead(TrimRight(x), atStart)
  {
    TrimRightIsPrefix(x);
    var y := TrimRight(x);
    assert x == y + x[|y|..];
    NoHeadPrefix(y, x[|y|..], atStart);
  }

  lemma {:induction false} StripNewlinesFacts(x: string)
    ensures StripNewlines(x) != "" ==> StripNewlines(x)[0] != '\n'
    ensures StripNewlines(StripNewlines(x)) == StripNewlines(x)
  {
    if x != "" && x[0] == '\n' {
      StripNewlinesFacts(x[1..]);
    }
  }

  lemma BodyIsStable(x: string)
    ensures Body(Body(x)) == Body(x)
  {
    var y := StripNewlines(x);
    StripNewlinesFacts(x);
    TrimRightIsPrefix(y);
    if TrimRight(y) != "" {
      assert TrimRight(y)[0] == y[0];
    }
  }

  /** What every section read from a text is like. */
  predicate GoodSection(s: Section) {
    && GoodKey(s.key) && NoHead(s.body, true) && Body(s.body) == s.body
    && '\n' !in s.title && (s.title != "" ==> !IsSpace(s.title[0]) && !IsSpace(s.title[|s.title| - 1]))
  }

  lemma {:induction false} TrimLeftFacts(x: string)
    ensures TrimLeft(x) != "" ==> !IsSpace(TrimLeft(x)[0])
  {
    if x != "" && IsSpace(x[0]) {
      TrimLeftFacts(x[1..]);
    }
  }

  lemma TitleFacts(after: string)
    ensures
      var (title, rest) := TitleAndRest(after);
      && '\n' !in title && (rest == "" || rest[0] == '\n')
      && (title != "" ==> !IsSpace(title[0]) && !IsSpace(title[|title| - 1]))
  {
    hide IsSpace;
    var r := TrimLeft(after);
    TrimLeftFacts(after);
    var line := r[..LineEnd(r)];
    TrimRightIsPrefix(line);
    var title := TrimRight(line);
    assert forall c :: c in title ==> c in line;
    if title != "" {
      assert title[0] == line[0] == r[0];
    }
  }

  lemma {:induction false} SectionsAreGood(text: string, atStart: bool)
    ensures forall s :: s in Sections(text, atStart) ==> GoodSection(s)
    decreases |text|
  {
    hide Anchor, GoodSection, TitleAndRest, Body, NextHead;
    if text != "" {
      if atStart && HeadStart(text) {
        AnchorShrinks(text);
        var (key, after) := Anchor(text).value;
        var (title, rest) := TitleAndRest(after);
        FirstIsGood(text);
        SectionsAreGood(rest[NextHead(rest, false)..], true);
      } else {
        SectionsAreGood(text[1..], text[0] == '\n');
      }
    }
  }

  lemma FirstIsGood(text: string)
    requires HeadStart(text)
    ensures
      var (key, after) := Anchor(text).value;
      var (title, rest) := TitleAndRest(after);
      GoodSection(Section(key, title, Body(rest[..NextHead(rest, false)])))
  {
    FoundKeyIsGood(text);
    hide Anchor, IsSpace, GoodKey, NoHead, TitleAndRest, Body;
    var (key, after) := Anchor(text).value;
    TitleFacts(after);
    BodyIsGood(TitleAndRest(after).1);
  }

  lemma BodyIsGood(rest: string)
    requires rest == "" || rest[0] == '\n'
    ensures NoHead(Body(rest[..NextHead(rest, false)]), true)
    ensures Body(Body(rest[..NextHead(rest, false)])) == Body(rest[..NextHead(rest, false)])
  {
    var x := rest[..NextHead(rest, false)];
    UpToNextHead(rest, false);
    StrippedHasNoHead(x);
    TrimmedHasNoHead(StripNewlines(x), true);
    BodyIsStable(x);
  }

  // ----------------------------------------------------------------- writing sections

  function RenderSection(key: string, title: string, body: string): string {
    TrimRight(OPEN + key + "] " + title + "\n" + body)
  }

  function Join(parts: seq<string>): string {
    if parts == [] then "" else if |parts| == 1 then parts[0] else parts[0] + "\n\n" + Join(parts[1..])
  }

  const TODO := "<!-- TODO -->"

  /** The body last given for a key. */
  function Lookup(sections: seq<Section>, key: string): Option<string> {
    if sections == [] then None
    else
      var last := sections[|sections| - 1];
      if last.key == key then Some(last.body) else Lookup(sections[..|sections| - 1], key)
  }

  /** Detected content wins; then what is there; then a placeholder. */
  function BodyFor(key: string, auto: map<string, string>, existing: seq<Section>): string {
    if key in auto then auto[key]
    else
      var found := Lookup(existing, key);
      if found.Some? then found.value else TODO
  }

  function Filled(template: seq<Section>, auto: map<string, string>, existing: seq<Section>): seq<Section> {
    seq(|template|, i requires 0 <= i < |template| =>
      template[i].(body := BodyFor(template[i].key, auto, existing)))
  }

  function Parts(sections: seq<Section>): seq<string> {
    seq(|sections|, i requires 0 <= i < |sections| =>
      RenderSection(sections[i].key, sections[i].title, sections[i].body))
  }

  function Preamble(template: string, first: string): string {
    var at := Find(template, OPEN + first + "]");
    if at.Some? && at.value > 0 then TrimRight(template[..at.value]) else ""
  }

  /** The body of a merged document. `autoOnly` is what a template without anchors gets instead. */
  function MergedBody(template: string, existing: string, auto: map<string, string>, autoOnly: string): string {
    var sections := Sections(template, true);
    if sections == [] then autoOnly
    else
      var preamble := Preamble(template, sections[0].key);
      Join((if preamble != "" then [preamble] else []) + Parts(Filled(sections, auto, Sections(existing, true)))) + "\n"
  }

  /** A section that can be written and read back. */
  predicate Writable(s: Section) {
    && GoodKey(s.key) && NoHead(s.body, true) && '\n' !in s.title
    && s.title != "" && !IsSpace(s.title[0]) && !IsSpace(s.title[|s.title| - 1])
  }

  function AsRead(sections: seq<Section>): seq<Section> {
    seq(|sections|, i requires 0 <= i < |sections| => sections[i].(body := Body(sections[i].body)))
  }

  /** What follows the title on a written section, newlines and all. */
  function Remainder(body: string): string {
    if TrimRight(body) == "" then "" else "\n" + TrimRight(body)
  }

  lemma RenderedIs(s: Section)
    requires Writable(s)
    ensures RenderSection(s.key, s.title, s.body) == OPEN + s.key + "]" + (" " + s.title + Remainder(s.body))
  {
    NewlineIsSpace();
    hide IsSpace, GoodKey, NoHead;
    var head := OPEN + s.key + "] " + s.title;
    assert head != "" && head[|head| - 1] == s.title[|s.title| - 1];
    TrimmedHead(head, s.body);
    RenderedShape(s.key, s.title, Remainder(s.body));
    hide TrimRight, Remainder;
  }

  lemma TrimmedHead(head: string, body: string)
    requires head != "" && !IsSpace(head[|head| - 1])
    ensures TrimRight(head + "\n" + body) == head + Remainder(body)
  {
    TrimRightJoin(head + "\n", body);
    TrimmedNewlines(head);
    hide IsSpace;
    assert TrimRight(head) == head;
    hide TrimRight;
    assert head + "\n" + TrimRight(body) == head + ("\n" + TrimRight(body));
  }

  lemma NewlineIsSpace()
    ensures IsSpace('\n') && IsSpace(' ')
  {
  }

  lemma RenderedShape(key: string, title: string, tail: string)
    ensures OPEN + key + "] " + title + tail == OPEN + key + "]" + (" " + title + tail)
  {
    assert "] " == "]" + " ";
  }

  lemma {:induction false} LineEndAt(line: string, rest: string)
    requires '\n' !in line && (rest == "" || rest[0] == '\n')
    ensures LineEnd(line + rest) == |line|
  {
    if line == "" {
      assert line + rest == rest;
    } else {
      assert (line + rest)[1..] == line[1..] + rest;
      LineEndAt(line[1..], rest);
    }
  }

  lemma TitleReadsBack(gap: string, title: string, rest: string)
    requires gap == " " || gap == "\n"
    requires '\n' !in title && title != "" && !IsSpace(title[0]) && !IsSpace(title[|title| - 1])
    requires rest == "" || rest[0] == '\n'
    ensures TitleAndRest(gap + title + rest) == (title, rest)
  {
    NewlineIsSpace();
    hide IsSpace;
    var after := gap + title + rest;
    assert after[1..] == title + rest;
    assert TrimLeft(title + rest) == title + rest;
    assert TrimLeft(after) == title + rest;
    LineEndAt(title, rest);
    assert (title + rest)[..|title|] == title && (title + rest)[|title|..] == rest;
    assert TrimRight(title) == title;
  }

  lemma TrimmedNewlines(x: string)
    ensures TrimRight(x + "\n") == TrimRight(x)
  {
    NewlineIsSpace();
    assert (x + "\n")[..|x|] == x;
  }

  lemma {:induction false} StripThenTrim(x: string)
    ensures StripNewlines(TrimRight(x)) == TrimRight(StripNewlines(x))
    decreases |x|
  {
    NewlineIsSpace();
    hide IsSpace;
    TrimRightIsPrefix(x);
    if x != "" && x[0] == '\n' {
      StripThenTrim(x[1..]);
      assert x == "\n" + x[1..];
      TrimRightJoin("\n", x[1..]);
      if TrimRight(x[1..]) == "" {
        assert "\n"[..0] == "";
        assert TrimRight("\n") == TrimRight("") == "";
      } else {
        assert ("\n" + TrimRight(x[1..]))[1..] == TrimRight(x[1..]);
      }
    } else if TrimRight(x) != "" {
      assert TrimRight(x)[0] == x[0];
    }
  }

  /** The body between a title and the next heading is the written one, stripped. */
  lemma BodyReadsBack(body: string)
    ensures Body(Remainder(body) + "\n") == Body(body)
    ensures Body(Remainder(body) + "\n\n") == Body(body)
  {
    var r := Remainder(body);
    StripThenTrim(r + "\n");
    StripThenTrim(r + "\n\n");
    TrimmedNewlines(r);
    assert r + "\n\n" == (r + "\n") + "\n";
    TrimmedNewlines(r + "\n");
    StripThenTrim(body);
    hide IsSpace;
    assert StripNewlines(TrimRight(r)) == StripNewlines(TrimRight(body)) by {
      TrimmedRemainder(body);
    }
    hide TrimRight, StripNewlines;
  }

  lemma TrimmedRemainder(body: string)
    ensures StripNewlines(TrimRight(Remainder(body))) == StripNewlines(TrimRight(body))
  {
    TrimRightIsPrefix(body);
    if TrimRight(body) != "" {
      hide IsSpace;
      TrimRightJoin("\n", TrimRight(body));
      assert ("\n" + TrimRight(body))[1..] == TrimRight(body);
    }
  }

  /** The written remainder of a section has no heading. */
  lemma RemainderHasNoHead(body: string)
    requires NoHead(body, true)
    ensures NoHead(Remainder(body) + "\n", false) && NoHead(Remainder(body) + "\n\n", false)
  {
    TrimmedHasNoHead(body, true);
    var r := Remainder(body);
    if r != "" {
      assert r[1..] == TrimRight(body);
    }
    NoHeadNewline(r, false);
    NoHeadNewline(r + "\n", false);
    assert r + "\n\n" == (r + "\n") + "\n";
  }

  /** One written section and what comes after it. */
  lemma OneSection(s: Section, gap: string, rest: string)
    requires Writable(s) && (gap == "\n" || gap == "\n\n") && (rest == "" || HeadStart(rest))
    ensures Sections(RenderSection(s.key, s.title, s.body) + gap + rest, true)
         == [s.(body := Body(s.body))] + Sections(rest, true)
    ensures HeadStart(RenderSection(s.key, s.title, s.body) + gap + rest)
  {
    RenderedIs(s);
    var x := Remainder(s.body) + gap;
    RenderedText(OPEN + s.key + "]", s.title, Remainder(s.body), gap, rest);
    SectionAt(s, x, rest);
    BodyReadsBack(s.body);
    hide *;
  }

  /** A heading, its title, and the lines up to the next heading. */
  lemma SectionAt(s: Section, x: string, rest: string)
    requires GoodKey(s.key) && '\n' !in s.title
    requires s.title != "" && !IsSpace(s.title[0]) && !IsSpace(s.title[|s.title| - 1])
    requires NoHead(s.body, true) && (x == Remainder(s.body) + "\n" || x == Remainder(s.body) + "\n\n")
    requires rest == "" || HeadStart(rest)
    ensures
      var text := OPEN + s.key + "]" + (" " + s.title + (x + rest));
      HeadStart(text) && Sections(text, true) == [Section(s.key, s.title, Body(x))] + Sections(rest, true)
  {
    var after := " " + s.title + (x + rest);
    StartsWithNewline(s.body, x);
    assert (x + rest)[0] == '\n';
    TitleReadsBack(" ", s.title, x + rest);
    RemainderHasNoHead(s.body);
    PassOver(x, rest, false);
    assert NextHead(rest, true) == 0;
    hide TrimRight, IsSpace, TrimLeft, LineEnd, StripNewlines, Key, Remainder, TitleAndRest, Body, NoHead, NextHead, GoodKey;
    RenderedHead(s.key, after);
    Pieces(x, rest);
    AnchorShrinks(OPEN + s.key + "]" + after);
    hide Anchor;
  }

  lemma StartsWithNewline(body: string, x: string)
    requires x == Remainder(body) + "\n" || x == Remainder(body) + "\n\n"
    ensures x != "" && x[0] == '\n' && x[|x| - 1] == '\n'
  {
    hide TrimRight;
  }

  lemma Pieces(x: string, rest: string)
    ensures (x + rest)[..|x|] == x && (x + rest)[|x|..] == rest
  {
  }

  lemma RenderedText(head: string, title: string, remainder: string, gap: string, rest: string)
    ensures head + (" " + title + remainder) + gap + rest == head + (" " + title + ((remainder + gap) + rest))
  {
  }

  /** Sections written one after another are read back, their bodies stripped. */
  lemma {:induction false} SectionsReadBack(sections: seq<Section>)
    requires forall s :: s in sections ==> Writable(s)
    requires sections != []
    ensures Sections(Join(Parts(sections)) + "\n", true) == AsRead(sections)
    ensures HeadStart(Join(Parts(sections)) + "\n")
  {
    var s, rest := sections[0], sections[1..];
    assert s in sections;
    ConsSections(sections);
    hide *;
    var part := RenderSection(s.key, s.title, s.body);
    JoinCons(part, Parts(rest));
    EmptySections();
    if rest == [] {
      OneSection(s, "\n", "");
    } else {
      SectionsReadBack(rest);
      OneSection(s, "\n\n", Join(Parts(rest)) + "\n");
    }
  }

  lemma ConsSections(sections: seq<Section>)
    requires sections != []
    ensures
      var s, rest := sections[0], sections[1..];
      && Parts(sections) == [RenderSection(s.key, s.title, s.body)] + Parts(rest)
      && AsRead(sections) == [s.(body := Body(s.body))] + AsRead(rest)
      && (rest == [] ==> Parts(rest) == [] && AsRead(rest) == [])
      && (rest != [] ==> Parts(rest) != [])
  {
    hide RenderSection, Body;
  }

  lemma JoinCons(part: string, parts: seq<string>)
    ensures Join([part] + parts) + "\n"
         == if parts == [] then part + "\n" + "" else part + "\n\n" + (Join(parts) + "\n")
  {
    assert ([part] + parts)[1..] == parts;
  }

  lemma EmptySections()
    ensures Sections("", true) == [] && forall a: seq<Section> :: a + [] == a
  {
  }

  /** An untitled heading takes the first line under it as its title, and that line is not in its body. */
  lemma UntitledHeadingLosesALine(key: string, line: string, rest: string)
    requires GoodKey(key) && '\n' !in line && line != "" && !IsSpace(line[0]) && !IsSpace(line[|line| - 1])
    requires rest == "" || rest[0] == '\n'
    ensures
      var sections := Sections(OPEN + key + "]" + ("\n" + line + rest), true);
      sections != [] && sections[0] == Section(key, line, Body(rest[..NextHead(rest, false)]))
  {
    var after := "\n" + line + rest;
    TitleReadsBack("\n", line, rest);
    hide TrimRight, IsSpace, TrimLeft, LineEnd, StripNewlines, Key, Anchor, GoodKey;
    RenderedHead(key, after);
    AnchorShrinks(OPEN + key + "]" + after);
  }

  /** The sections of a text, heading by heading. */
  method SplitAnchors(text: string) returns (sections: seq<Section>)
    ensures sections == Sections(text, true)
  {
    hide Anchor, TitleAndRest, Body, NextHead;
    sections := [];
    var here, atStart := text, true;
    while here != ""
      invariant Sections(text, true) == sections + Sections(here, atStart)
      decreases |here|
    {
      if atStart && HeadStart(here) {
        AnchorShrinks(here);
        var (key, after) := Anchor(here).value;
        var (title, rest) := TitleAndRest(after);
        var n := NextHead(rest, false);
        sections := sections + [Section(key, title, Body(rest[..n]))];
        here := rest[n..];
      } else {
        here, atStart := here[1..], here[0] == '\n';
      }
    }
  }

  /** The body of a merged document, part by part. */
  method MergeBody(template: string, existing: string, auto: map<string, string>, autoOnly: string)
    returns (body: string)
    ensures body == MergedBody(template, existing, auto, autoOnly)
  {
    hide Sections, RenderSection, Join, Preamble, BodyFor;
    var sections := SplitAnchors(template);
    if sections == [] {
      return autoOnly;
    }
    var found := SplitAnchors(existing);
    var preamble := Preamble(template, sections[0].key);
    var parts := if preamble != "" then [preamble] else [];
    ghost var before, all := parts, Parts(Filled(sections, auto, found));
    for i := 0 to |sections|
      invariant parts == before + all[..i]
    {
      var s := sections[i];
      var chosen := BodyFor(s.key, auto, found);
      parts := parts + [RenderSection(s.key, s.title, chosen)];
      assert all[..i + 1] == all[..i] + [all[i]];
    }
    assert all[..|sections|] == all;
    return Join(parts) + "\n";
  }

  // ------------------------------------------------------------------ merging twice

  lemma {:induction false} LookupIn(sections: seq<Section>, key: string)
    ensures Lookup(sections, key).Some? ==>
              exists s :: s in sections && s.key == key && s.body == Lookup(sections, key).value
    ensures Lookup(sections, key).None? ==> forall s :: s in sections ==> s.key != key
  {
    if sections != [] {
      var front, last := sections[..|sections| - 1], sections[|sections| - 1];
      LookupIn(front, key);
      assert sections == front + [last];
    }
  }

  /** When the body is a function of the key, looking up gives that body. */
  lemma LookupByKey(sections: seq<Section>, key: string, body: string)
    requires exists s :: s in sections && s.key == key
    requires forall s :: s in sections && s.key == key ==> s.body == body
    ensures Lookup(sections, key) == Some(body)
  {
    LookupIn(sections, key);
  }

  lemma TodoIsPlain()
    ensures Body(TODO) == TODO && NoHead(TODO, true)
  {
    assert TODO[0] == '<' && TODO[|TODO| - 1] == '>';
    assert Printable(TODO);
    assert TrimRight(TODO) == TODO;
    assert !HeadStart(TODO) by {
      assert OPEN[0] == '#';
    }
    OneLineHasNoHead(TODO[1..]);
  }

  lemma {:induction false} OneLineHasNoHead(text: string)
    requires Printable(text)
    ensures NoHead(text, false)
  {
    if text != "" {
      assert forall i :: 0 <= i < |text[1..]| ==> text[1..][i] == text[i + 1];
      OneLineHasNoHead(text[1..]);
    }
  }

  /** The bodies chosen for a document: those not detected anew are already stripped and have no heading. */
  lemma ChosenBody(key: string, auto: map<string, string>, existing: string)
    requires key !in auto
    ensures
      var body := BodyFor(key, auto, Sections(existing, true));
      Body(body) == body && NoHead(body, true)
  {
    TodoIsPlain();
    SectionsAreGood(existing, true);
    LookupIn(Sections(existing, true), key);
  }

  lemma {:induction false} FindAtMost(text: string, pattern: string, n: nat)
    requires n <= |text| && pattern <= text[n..]
    ensures Find(text, pattern).Some? && Find(text, pattern).value <= n
  {
    if !(pattern <= text) {
      assert n > 0 by {
        assert text[0..] == text;
      }
      assert text[1..][n - 1..] == text[n..];
      FindAtMost(text[1..], pattern, n - 1);
    }
  }

  /** The first section starts at the first heading. */
  lemma {:induction false} FirstSection(text: string, atStart: bool)
    ensures Sections(text, atStart) == [] <==> NextHead(text, atStart) == |text|
    ensures Sections(text, atStart) != [] ==>
              var n := NextHead(text, atStart);
              n < |text| && HeadStart(text[n..]) && Anchor(text[n..]).value.0 == Sections(text, atStart)[0].key
    decreases |text|
  {
    hide Anchor, TitleAndRest, Body;
    if text != "" {
      if atStart && HeadStart(text) {
        assert text[0..] == text;
      } else {
        FirstSection(text[1..], text[0] == '\n');
        var m := NextHead(text[1..], text[0] == '\n');
        assert text[1..][m..] == text[m + 1..];
      }
    }
  }

  /** The preamble comes from before the first heading. */
  lemma PreambleHasNoHead(template: string)
    requires Sections(template, true) != []
    ensures NoHead(Preamble(template, Sections(template, true)[0].key), true)
  {
    FirstSection(template, true);
    var key := Sections(template, true)[0].key;
    var n := NextHead(template, true);
    UpToNextHead(template, true);
    hide Sections, NoHead, NextHead, Anchor, Find, TrimRight;
    HeadIsFound(template, n);
    var at := Find(template, OPEN + key + "]").value;
    PrefixHasNoHead(template[..n], at);
    assert template[..n][..at] == template[..at];
    TrimmedHasNoHead(template[..at], true);
    EmptyHasNoHead();
  }

  lemma EmptyHasNoHead()
    ensures NoHead("", true)
  {
  }

  lemma PrefixHasNoHead(text: string, n: nat)
    requires NoHead(text, true) && n <= |text|
    ensures NoHead(text[..n], true)
  {
    hide NoHead;
    assert text == text[..n] + text[n..];
    NoHeadPrefix(text[..n], text[n..], true);
  }

  lemma HeadIsFound(template: string, n: nat)
    requires n <= |template| && HeadStart(template[n..])
    ensures
      var at := Find(template, OPEN + Anchor(template[n..]).value.0 + "]");
      at.Some? && at.value <= n
  {
    FoundKeyIsGood(template[n..]);
    hide Anchor, Find, GoodKey;
    FindAtMost(template, OPEN + Anchor(template[n..]).value.0 + "]", n);
  }

  /** The preamble of a merged document adds no section. */
  lemma PreambleAddsNone(template: string, existing: string, auto: map<string, string>, autoOnly: string)
    requires Sections(template, true) != []
    ensures Sections(MergedBody(template, existing, auto, autoOnly), true)
         == Sections(Join(Parts(Filled(Sections(template, true), auto, Sections(existing, true)))) + "\n", true)
  {
    var sections := Sections(template, true);
    var filled := Filled(sections, auto, Sections(existing, true));
    PreambleHasNoHead(template);
    var preamble := Preamble(template, sections[0].key);
    var text := Join(Parts(filled)) + "\n";
    hide Sections, Preamble, Filled, NoHead, AsRead, Parts;
    assert Parts(filled) != [] by { PartsNotEmpty(filled); }
    assert [] + Parts(filled) == Parts(filled);
    if preamble != "" {
      JoinCons(preamble, Parts(filled));
      NoHeadNewline(preamble, true);
      NoHeadNewline(preamble + "\n", true);
      assert preamble + "\n\n" == (preamble + "\n") + "\n";
      PassOver(preamble + "\n\n", text, true);
    }
  }

  lemma PartsNotEmpty(sections: seq<Section>)
    requires sections != []
    ensures Parts(sections) != []
  {
  }

  lemma KeptBody(sections: seq<Section>, existing: string, auto: map<string, string>, i: nat)
    requires i < |sections| && sections[i].key !in auto
    ensures Lookup(AsRead(Filled(sections, auto, Sections(existing, true))), sections[i].key)
         == Some(BodyFor(sections[i].key, auto, Sections(existing, true)))
  {
    var key := sections[i].key;
    var read := AsRead(Filled(sections, auto, Sections(existing, true)));
    ChosenBody(key, auto, existing);
    hide Sections, BodyFor, Lookup, Body;
    assert read[i] in read && read[i].key == key;
    LookupByKey(read, key, BodyFor(key, auto, Sections(existing, true)));
  }

  // --------------------------------------------------------------------- front matter

  const NL: set<char> := {'\n'}
  const FENCE := "---\n"

  /** An ordered dictionary: a key set again keeps its place. */
  type Front = seq<(string, string)>

  function Set(fm: Front, key: string, value: string): Front {
    if fm == [] then [(key, value)]
    else if fm[0].0 == key then [(key, value)] + fm[1..]
    else [fm[0]] + Set(fm[1..], key, value)
  }

  function Get(fm: Front, key: string): Option<string> {
    if fm == [] then None else if fm[0].0 == key then Some(fm[0].1) else Get(fm[1..], key)
  }

  function Trim(text: string): string {
    TrimRight(TrimLeft(text))
  }

  /** One line of front matter: what is before and after its first colon. */
  function KeyValue(line: string): Option<(string, string)> {
    var text := TrimRight(line);
    var at := Find(text, ":");
    if at.None? then None else Some((Trim(text[..at.value]), Trim(text[at.value + 1..])))
  }

  function Collect(lines: seq<string>, fm: Front): Front {
    if lines == [] then fm
    else
      var kv := KeyValue(lines[0]);
      Collect(lines[1..], if kv.Some? then Set(fm, kv.value.0, kv.value.1) else fm)
  }

  /** The first closing fence from line `j` on. */
  function Closing(lines: seq<string>, j: nat): (n: Option<nat>)
    ensures n.Some? ==> j <= n.value < |lines|
    decreases |lines| - j
  {
    if j >= |lines| then None else if lines[j] == FENCE then Some(j) else Closing(lines, j + 1)
  }

  /** The front matter of a text and what follows it. */
  function ParseFront(text: string): (Front, string) {
    var lines := Lines(text, NL);
    var end := Closing(lines, 2);
    if lines == [] || lines[0] != FENCE || end.None? then ([], text)
    else (Collect(Lines(Flat(lines[1..end.value]), BREAKS), []), Flat(lines[end.value + 1..]))
  }

  function KeyLine(entry: (string, string)): string {
    entry.0 + ": " + entry.1 + "\n"
  }

  function KeyLines(fm: Front): seq<string> {
    seq(|fm|, i requires 0 <= i < |fm| => KeyLine(fm[i]))
  }

  function RenderFront(fm: Front): string {
    FENCE + Flat(KeyLines(fm)) + FENCE
  }

  predicate OneLine(text: string) {
    forall c :: c in text ==> c !in BREAKS
  }

  predicate GoodValue(value: string) {
    OneLine(value) && Trim(value) == value
  }

  predicate GoodEntry(entry: (string, string)) {
    GoodValue(entry.0) && GoodValue(entry.1) && ':' !in entry.0
  }

  predicate GoodFront(fm: Front) {
    && (forall e :: e in fm ==> GoodEntry(e))
    && (forall i, j :: 0 <= i < j < |fm| ==> fm[i].0 != fm[j].0)
  }

  lemma {:induction false} SetIsGood(fm: Front, key: string, value: string)
    requires GoodFront(fm) && GoodEntry((key, value))
    ensures GoodFront(Set(fm, key, value)) && Set(fm, key, value) != []
    ensures forall e :: e in Set(fm, key, value) ==> e.0 == key || e in fm
  {
    hide GoodEntry;
    if fm != [] {
      assert fm[0] in fm;
      assert GoodFront(fm[1..]) by {
        assert forall i :: 0 <= i < |fm| - 1 ==> fm[1..][i] == fm[i + 1];
      }
      SetIsGood(fm[1..], key, value);
      var rest := Set(fm[1..], key, value);
      if fm[0].0 != key {
        forall i | 0 <= i < |rest| ensures rest[i].0 != fm[0].0 {
          assert rest[i] in rest;
          if rest[i].0 != key {
            var m :| 0 <= m < |fm[1..]| && fm[1..][m] == rest[i];
            assert fm[m + 1] == rest[i];
          }
        }
      }
    }
  }

  lemma {:induction false} GetAfterSet(fm: Front, key: string, value: string, other: string)
    ensures Get(Set(fm, key, value), other) == if other == key then Some(value) else Get(fm, other)
  {
    if fm != [] && fm[0].0 != key {
      GetAfterSet(fm[1..], key, value, other);
    }
  }

  lemma {:induction false} SetSame(fm: Front, key: string, value: string)
    requires Get(fm, key) == Some(value)
    ensures Set(fm, key, value) == fm
  {
    if fm[0].0 != key {
      SetSame(fm[1..], key, value);
    }
  }

  lemma {:induction false} SetNew(fm: Front, entry: (string, string))
    requires forall e :: e in fm ==> e.0 != entry.0
    ensures Set(fm, entry.0, entry.1) == fm + [entry]
  {
    if fm != [] {
      assert fm[0] in fm;
      SetNew(fm[1..], entry);
      assert fm == [fm[0]] + fm[1..];
    }
  }

  lemma {:induction false} TrimLeftIsSuffix(text: string)
    ensures |TrimLeft(text)| <= |text| && TrimLeft(text) == text[|text| - |TrimLeft(text)|..]
  {
    if text != "" && IsSpace(text[0]) {
      TrimLeftIsSuffix(text[1..]);
    }
  }

  lemma {:induction false} TrimRightOfStart(text: string)
    requires text == "" || !IsSpace(text[0])
    ensures TrimRight(text) == "" || !IsSpace(TrimRight(text)[0])
  {
    TrimRightIsPrefix(text);
  }

  lemma TrimFacts(text: string)
    ensures Trim(Trim(text)) == Trim(text)
    ensures forall c :: c in Trim(text) ==> c in text
  {
    TrimLeftFacts(text);
    TrimLeftIsSuffix(text);
    TrimRightIsPrefix(TrimLeft(text));
    TrimRightOfStart(TrimLeft(text));
    hide IsSpace;
    assert TrimLeft(Trim(text)) == Trim(text);
  }

  lemma {:induction false} FindChar(text: string, c: char)
    ensures Find(text, [c]).Some? ==> c !in text[..Find(text, [c]).value]
    ensures Find(text, [c]).None? ==> c !in text
  {
    if text != "" && text[0] != c {
      FindChar(text[1..], c);
      var n := Find(text[1..], [c]);
      assert text == [text[0]] + text[1..];
      if n.Some? {
        assert text[..n.value + 1] == [text[0]] + text[1..][..n.value];
      }
    } else if text != "" {
      assert [c] <= text;
    }
  }

  lemma {:induction false} FindCharAt(a: string, b: string, c: char)
    requires c !in a
    ensures Find(a + [c] + b, [c]) == Some(|a|)
  {
    var text := a + [c] + b;
    if a != "" {
      assert text[1..] == a[1..] + [c] + b;
      FindCharAt(a[1..], b, c);
    }
  }

  lemma EntryIsGood(line: string)
    requires IsLine(line, BREAKS) && KeyValue(line).Some?
    ensures GoodEntry(KeyValue(line).value)
  {
    var text := TrimRight(line);
    TrimRightIsPrefix(line);
    SpacesAreBreaks();
    FindChar(text, ':');
    var at := Find(text, ":").value;
    var a, b := text[..at], text[at + 1..];
    TrimFacts(a);
    TrimFacts(b);
    hide IsSpace, TrimRight, TrimLeft, Find, Trim;
    TrimmedLineIsOneLine(line, text);
    assert forall c :: c in a ==> c in text;
    assert forall c :: c in b ==> c in text;
  }

  lemma SpacesAreBreaks()
    ensures forall c :: c in BREAKS ==> IsSpace(c)
  {
  }

  /** Trimming a line takes its terminator. */
  lemma TrimmedLineIsOneLine(line: string, text: string)
    requires IsLine(line, BREAKS) && text <= line && (text != "" ==> text[|text| - 1] !in BREAKS)
    ensures OneLine(text)
  {
    forall c | c in text ensures c !in BREAKS {
      var i :| 0 <= i < |text| && text[i] == c;
      assert line[i] == c;
    }
  }

  lemma {:induction false} CollectIsGood(lines: seq<string>, fm: Front)
    requires GoodFront(fm) && forall line :: line in lines ==> IsLine(line, BREAKS)
    ensures GoodFront(Collect(lines, fm))
  {
    hide IsLine, GoodEntry, KeyValue, GoodFront;
    if lines != [] {
      var kv := KeyValue(lines[0]);
      if kv.Some? {
        EntryIsGood(lines[0]);
        SetIsGood(fm, kv.value.0, kv.value.1);
      }
      CollectIsGood(lines[1..], if kv.Some? then Set(fm, kv.value.0, kv.value.1) else fm);
    }
  }

  lemma ParsedFrontIsGood(text: string)
    ensures GoodFront(ParseFront(text).0)
  {
    var lines := Lines(text, NL);
    var end := Closing(lines, 2);
    if lines != [] && lines[0] == FENCE && end.Some? {
      FlatOfLines(Flat(lines[1..end.value]), BREAKS);
      CollectIsGood(Lines(Flat(lines[1..end.value]), BREAKS), []);
    }
  }

  // ------------------------------------------------------- printing and reading again

  lemma PartsAreOneLine(a: string, b: string)
    requires OneLine(a) && OneLine(b)
    ensures OneLine(a + ": " + b)
  {
    hide OneLine;
    assert OneLine(": ") by { ColonIsOneLine(); }
    OneLineJoin(a, ": ");
    OneLineJoin(a + ": ", b);
  }

  lemma ColonIsOneLine()
    ensures OneLine(": ")
  {
  }

  lemma OneLineJoin(a: string, b: string)
    requires OneLine(a) && OneLine(b)
    ensures OneLine(a + b)
  {
  }

  lemma EndedOneLine(body: string, breaks: set<char>)
    requires '\n' in breaks && forall c :: c in body ==> c !in breaks
    ensures IsLine(body + "\n", breaks) && Ended(body + "\n", breaks)
  {
    var line := body + "\n";
    forall i | 0 <= i < |line| - 1 ensures line[i] !in breaks {
      assert line[i] == body[i] && body[i] in body;
    }
  }

  lemma KeyLineReadsBack(entry: (string, string))
    requires GoodEntry(entry)
    ensures KeyValue(KeyLine(entry)) == Some(entry)
    ensures IsLine(KeyLine(entry), BREAKS) && Ended(KeyLine(entry), BREAKS)
    ensures IsLine(KeyLine(entry), NL) && Ended(KeyLine(entry), NL) && KeyLine(entry) != FENCE
  {
    var (k, v) := entry;
    var body := k + ": " + v;
    PartsAreOneLine(k, v);
    NewlineBreaks();
    EndedOneLine(body, BREAKS);
    EndedOneLine(body, NL);
    assert ':' in body by {
      assert body[|k|] == ':';
    }
    assert ':' in KeyLine(entry) && ':' !in FENCE;
    TrimmedKeyLine(k, v);
    hide *;
    hide KeyLine, TrimRight;
    KeyLineIs(k, v);
  }

  lemma KeyLineIs(k: string, v: string)
    ensures KeyLine((k, v)) == k + ": " + v + "\n"
  {
  }

  lemma NewlineBreaks()
    ensures '\n' in BREAKS && forall c :: c in NL ==> c in BREAKS
  {
  }

  lemma TrimOfTrimmed(v: string)
    requires Trim(v) == v
    ensures TrimRight(v) == v && TrimLeft(v) == v && Trim(" " + v) == v
  {
    NewlineIsSpace();
    TrimLeftIsSuffix(v);
    TrimRightIsPrefix(TrimLeft(v));
    hide IsSpace;
    assert |TrimLeft(v)| == |v|;
    assert TrimLeft(v) == v;
    assert (" " + v)[1..] == v;
  }

  /** The value of a written line, whether or not it is empty. */
  lemma TrimmedKeyLine(k: string, v: string)
    requires GoodEntry((k, v))
    ensures KeyValue(k + ": " + v + "\n") == Some((k, v))
  {
    TrimOfTrimmed(k);
    TrimOfTrimmed(v);
    var tail := if v == "" then "" else " " + v;
    TrimmedKeyText(k, v);
    hide IsSpace, Find, TrimRight, TrimLeft;
    FindCharAt(k, tail, ':');
    assert (k + ":" + tail)[..|k|] == k && (k + ":" + tail)[|k| + 1..] == tail;
    assert Trim("") == "" by {
      hide *;
      EmptyTrims();
    }
    assert Trim(tail) == v;
  }

  lemma EmptyTrims()
    ensures Trim("") == ""
  {
  }

  lemma TrimmedKeyText(k: string, v: string)
    requires TrimRight(v) == v
    ensures TrimRight(k + ": " + v + "\n") == k + ":" + (if v == "" then "" else " " + v)
  {
    NewlineIsSpace();
    var head := k + ":";
    KeyTextShape(k, v);
    TrimmedNewlines(" " + v);
    assert " "[..0] == "";
    assert TrimRight(" ") == "";
    assert head[|head| - 1] == ':';
    assert TrimRight(head) == head;
    hide IsSpace, TrimRight;
    TrimRightJoin(head, " " + v + "\n");
    TrimRightJoin(" ", v);
  }

  lemma KeyTextShape(k: string, v: string)
    ensures k + ": " + v + "\n" == (k + ":") + (" " + v + "\n")
  {
    assert ": " == ":" + " ";
  }

  lemma {:induction false} CollectReadsBack(fm: Front, done: Front)
    requires GoodFront(done + fm)
    ensures Collect(KeyLines(fm), done) == done + fm
  {
    if fm == [] {
      assert done + fm == done;
    } else {
      var e, rest := fm[0], fm[1..];
      assert (done + fm)[|done|] == e;
      assert e in done + fm;
      KeyLineReadsBack(e);
      hide KeyLine, KeyValue, GoodEntry;
      assert KeyLines(fm)[0] == KeyLine(e) && KeyLines(fm)[1..] == KeyLines(rest);
      forall d | d in done ensures d.0 != e.0 {
        var i :| 0 <= i < |done| && done[i] == d;
        assert (done + fm)[i] == d;
      }
      SetNew(done, e);
      assert done + fm == (done + [e]) + rest;
      CollectReadsBack(rest, done + [e]);
    }
  }

  lemma KeyLinesAreLines(fm: Front)
    requires GoodFront(fm)
    ensures Cut(KeyLines(fm), BREAKS) && AllEnded(KeyLines(fm), BREAKS)
    ensures Cut(KeyLines(fm), NL) && AllEnded(KeyLines(fm), NL)
    ensures forall line :: line in KeyLines(fm) ==> line != FENCE
  {
    forall i | 0 <= i < |fm|
      ensures IsLine(KeyLines(fm)[i], BREAKS) && Ended(KeyLines(fm)[i], BREAKS)
      ensures IsLine(KeyLines(fm)[i], NL) && Ended(KeyLines(fm)[i], NL) && KeyLines(fm)[i] != FENCE
    {
      assert fm[i] in fm;
      KeyLineReadsBack(fm[i]);
    }
  }

  lemma {:induction false} ClosingAt(lines: seq<string>, j: nat, n: nat)
    requires j <= n < |lines| && lines[n] == FENCE && forall k :: j <= k < n ==> lines[k] != FENCE
    ensures Closing(lines, j) == Some(n)
    decreases n - j
  {
    if j < n {
      ClosingAt(lines, j + 1, n);
    }
  }

  lemma FenceIsALine()
    ensures IsLine(FENCE, NL) && Ended(FENCE, NL)
  {
  }

  lemma FrontLines(fm: Front, body: string)
    requires GoodFront(fm)
    ensures Lines(RenderFront(fm) + body, NL) == [FENCE] + KeyLines(fm) + [FENCE] + Lines(body, NL)
  {
    FenceIsALine();
    KeyLinesAreLines(fm);
    hide KeyLines, GoodFront, Lines, Flat;
    var front := [FENCE] + KeyLines(fm) + [FENCE];
    CutJoin([FENCE], KeyLines(fm), NL);
    CutJoin([FENCE] + KeyLines(fm), [FENCE], NL);
    LinesOfFlat(front, NL);
    FlatJoin([FENCE] + KeyLines(fm), [FENCE]);
    FlatJoin([FENCE], KeyLines(fm));
    FlatOne(FENCE);
    LinesJoin(RenderFront(fm), body, NL);
  }

  /** Front matter written and read again is unchanged, and so is the text after it. */
  lemma FrontReadsBack(fm: Front, body: string)
    requires GoodFront(fm) && fm != []
    ensures ParseFront(RenderFront(fm) + body) == (fm, body)
  {
    FrontLines(fm, body);
    KeyLinesAreLines(fm);
    CollectReadsBack(fm, []);
    FlatOfLines(body, NL);
    LinesOfFlat(KeyLines(fm), BREAKS);
    assert |KeyLines(fm)| == |fm|;
    hide *;
    assert [] + fm == fm;
    FoundFront([FENCE], KeyLines(fm), Lines(body, NL));
    FrontFound(RenderFront(fm) + body, KeyLines(fm), Lines(body, NL));
  }

  lemma FrontFound(text: string, mid: seq<string>, rest: seq<string>)
    requires
      var lines := Lines(text, NL);
      && |lines| > |mid| + 1 && lines[0] == FENCE && Closing(lines, 2) == Some(|mid| + 1)
      && lines[1..|mid| + 1] == mid && lines[|mid| + 2..] == rest
    ensures ParseFront(text) == (Collect(Lines(Flat(mid), BREAKS), []), Flat(rest))
  {
    hide Lines, Flat, Collect, Closing, BREAKS;
  }

  lemma FoundFront(fence: seq<string>, mid: seq<string>, rest: seq<string>)
    requires fence == [FENCE] && mid != [] && forall line :: line in mid ==> line != FENCE
    ensures
      var lines := fence + mid + [FENCE] + rest;
      && lines[0] == FENCE && Closing(lines, 2) == Some(|mid| + 1)
      && lines[1..|mid| + 1] == mid && lines[|mid| + 2..] == rest
  {
    var lines := fence + mid + [FENCE] + rest;
    forall k | 2 <= k < |mid| + 1 ensures lines[k] != FENCE {
      assert lines[k] == mid[k - 1] && mid[k - 1] in mid;
    }
    ClosingAt(lines, 2, |mid| + 1);
  }

  // ---------------------------------------------------------------------- whole files

  /** The fields every merge stamps. */
  function Stamp(fm: Front, today: string, author: string): Front {
    var dated := Set(Set(fm, "updated_at", today), "generated_by", author);
    var version := Get(dated, "schema_version");
    var versioned := if version.None? || version.value == "" then Set(dated, "schema_version", "1") else dated;
    Set(versioned, "status", "current")
  }

  /** What a stamped front holds for the four stamped keys. */
  predicate Stamped(fm: Front, today: string, author: string) {
    && Get(fm, "updated_at") == Some(today) && Get(fm, "generated_by") == Some(author)
    && Get(fm, "schema_version").Some? && Get(fm, "schema_version") != Some("") && Get(fm, "status") == Some("current")
  }

  lemma StampStamps(fm: Front, today: string, author: string)
    ensures Stamped(Stamp(fm, today, author), today, author)
  {
    KeysDiffer();
    var a := Set(fm, "updated_at", today);
    var b := Set(a, "generated_by", author);
    GetAfterSet(fm, "updated_at", today, "updated_at");
    GetAfterSet(a, "generated_by", author, "updated_at");
    GetAfterSet(a, "generated_by", author, "generated_by");
    var version := Get(b, "schema_version");
    var c := if version.None? || version.value == "" then Set(b, "schema_version", "1") else b;
    hide Set, Get;
    GetAfterSet(b, "schema_version", "1", "schema_version");
    GetAfterSet(b, "schema_version", "1", "updated_at");
    GetAfterSet(b, "schema_version", "1", "generated_by");
    GetAfterSet(c, "status", "current", "schema_version");
    GetAfterSet(c, "status", "current", "updated_at");
    GetAfterSet(c, "status", "current", "generated_by");
    GetAfterSet(c, "status", "current", "status");
  }

  lemma KeysDiffer()
    ensures |"updated_at"| != |"generated_by"| && |"schema_version"| != |"generated_by"| && |"updated_at"| != |"schema_version"|
    ensures |"status"| != |"schema_version"| && |"status"| != |"updated_at"| && |"status"| != |"generated_by"|
    ensures "1" != ""
  {
  }

  lemma StampIsStable(fm: Front, today: string, author: string)
    ensures Stamp(Stamp(fm, today, author), today, author) == Stamp(fm, today, author)
  {
    var d := Stamp(fm, today, author);
    StampStamps(fm, today, author);
    hide Set, Get;
    SetSame(d, "updated_at", today);
    SetSame(d, "generated_by", author);
    SetSame(d, "status", "current");
  }

  lemma StampIsGood(fm: Front, today: string, author: string)
    requires GoodFront(fm) && GoodValue(today) && GoodValue(author)
    ensures GoodFront(Stamp(fm, today, author)) && Stamp(fm, today, author) != []
  {
    StampedNamesAreGood();
    hide GoodFront, GoodValue, Set, Get;
    SetIsGood(fm, "updated_at", today);
    SetIsGood(Set(fm, "updated_at", today), "generated_by", author);
    var dated := Set(Set(fm, "updated_at", today), "generated_by", author);
    SetIsGood(dated, "schema_version", "1");
    SetIsGood(dated, "status", "current");
    SetIsGood(Set(dated, "schema_version", "1"), "status", "current");
  }

  lemma PlainWord(text: string)
    requires forall i :: 0 <= i < |text| ==> 'a' <= text[i] <= 'z' || text[i] == '_' || text[i] == '1'
    ensures GoodValue(text) && ':' !in text
  {
    if text != "" {
      assert !IsSpace(text[0]) && !IsSpace(text[|text| - 1]);
    }
  }

  lemma StampedNamesAreGood()
    ensures forall v :: GoodValue(v) ==> GoodEntry(("updated_at", v)) && GoodEntry(("generated_by", v))
    ensures GoodEntry(("schema_version", "1")) && GoodEntry(("status", "current"))
  {
    DateNames();
    VersionNames();
    StatusNames();
    hide GoodValue;
  }

  lemma DateNames()
    ensures GoodValue("updated_at") && ':' !in "updated_at" && GoodValue("generated_by") && ':' !in "generated_by"
  {
    hide GoodValue;
    PlainWord("updated_at");
    PlainWord("generated_by");
  }

  lemma VersionNames()
    ensures GoodValue("schema_version") && ':' !in "schema_version" && GoodValue("1")
  {
    hide GoodValue;
    PlainWord("schema_version");
    PlainWord("1");
  }

  lemma StatusNames()
    ensures GoodValue("status") && ':' !in "status" && GoodValue("current")
  {
    hide GoodValue;
    PlainWord("status");
    PlainWord("current");
  }

  /** A generated file gets fresh bodies; an agent's file keeps its text. */
  function MergedText(template: string, body: string, auto: map<string, string>, autoOnly: string, overwrite: bool): string
  {
    if overwrite then MergedBody(ParseFront(template).1, body, auto, autoOnly)
    else
      var kept := StripNewlines(body);
      if kept == "" || kept[|kept| - 1] == '\n' then kept else kept + "\n"
  }

  function MergeFile(template: string, existing: Option<string>, auto: map<string, string>, autoOnly: string,
                     overwrite: bool, today: string, author: string): string {
    var (fm, body) := ParseFront(if existing.Some? then existing.value else template);
    RenderFront(Stamp(fm, today, author)) + MergedText(template, body, auto, autoOnly, overwrite)
  }
}
