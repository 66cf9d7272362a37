/** The managed-append block: one marked block that the harness keeps inside a file the user owns. */
module AppendBlock {
  import opened Prelude
  import opened TextLines

  // ------------------------------------------------------------------------ markers

  predicate NoBreaks(s: string) {
    forall c :: c in s ==> c !in BREAKS
  }

  predicate NoSpaces(s: string) {
    forall c :: c in s ==> !IsSpace(c)
  }

  const START := "# >>> low-reasoning-harness:"
  const END := "# <<< low-reasoning-harness:"

  function StartPrefix(path: string): string {
    START + path + " v"
  }

  function EndText(path: string): string {
    END + path
  }

  predicate StartMarker(line: string, path: string) {
    var text := Strip(line);
    && StartPrefix(path) <= text
    && |text| > |StartPrefix(path)|
    && NoSpaces(text[|StartPrefix(path)|..])
  }

  predicate EndMarker(line: string, path: string) {
    Strip(line) == EndText(path)
  }

  lemma MarkersDiffer(line: string, path: string)
    ensures !(StartMarker(line, path) && EndMarker(line, path))
  {
    if StartMarker(line, path) {
      assert Strip(line)[2] == StartPrefix(path)[2] == START[2];
      assert EndText(path)[2] == END[2];
    }
  }

  /** No marker line for this path. */
  predicate Clear(lines: seq<string>, path: string) {
    forall line :: line in lines ==> !StartMarker(line, path) && !EndMarker(line, path)
  }

  // ------------------------------------------------------------------------ parsing

  datatype Parsed = Absent | Malformed | Found(before: string, block: string, payload: string, after: string)

  /** Line `k` is the only one that is a start marker, an end marker. */
  ghost predicate OnlyStart(lines: seq<string>, path: string, k: nat) {
    k < |lines| && StartMarker(lines[k], path)
    && forall m :: 0 <= m < |lines| && m != k ==> !StartMarker(lines[m], path)
  }

  ghost predicate OnlyEnd(lines: seq<string>, path: string, k: nat) {
    k < |lines| && EndMarker(lines[k], path)
    && forall m :: 0 <= m < |lines| && m != k ==> !EndMarker(lines[m], path)
  }

  /** Lines `i` to `j` are the block: the only start marker, and after it the only end marker. */
  ghost predicate IsBlock(lines: seq<string>, path: string, i: nat, j: nat) {
    i < j && OnlyStart(lines, path, i) && OnlyEnd(lines, path, j)
  }

  function FoundAt(lines: seq<string>, i: nat, j: nat): Parsed
    requires i < j < |lines|
  {
    Found(Flat(lines[..i]), Flat(lines[i..j + 1]), Flat(lines[i + 1..j]), Flat(lines[j + 1..]))
  }

  ghost function ParseLines(lines: seq<string>, path: string): Parsed {
    if Clear(lines, path) then Absent
    else if exists i: nat, j: nat :: IsBlock(lines, path, i, j) then
      var i: nat, j: nat :| IsBlock(lines, path, i, j);
      FoundAt(lines, i, j)
    else Malformed
  }

  /** What a text says about its block: none, exactly one well-formed block, or anything else. */
  ghost function Parse(text: string, path: string): Parsed {
    ParseLines(Lines(text, BREAKS), path)
  }

  lemma BlockIsUnique(lines: seq<string>, path: string, i: nat, j: nat, i': nat, j': nat)
    requires IsBlock(lines, path, i, j) && IsBlock(lines, path, i', j')
    ensures i == i' && j == j'
  {
    hide StartMarker, EndMarker;
  }

  lemma ParsedAt(lines: seq<string>, path: string, i: nat, j: nat)
    requires IsBlock(lines, path, i, j)
    ensures ParseLines(lines, path) == FoundAt(lines, i, j)
  {
    hide StartMarker, EndMarker, FoundAt;
    assert lines[i] in lines && !Clear(lines, path);
    forall i': nat, j': nat | IsBlock(lines, path, i', j') ensures i' == i && j' == j {
      BlockIsUnique(lines, path, i, j, i', j');
    }
  }

  lemma NotParsed(lines: seq<string>, path: string)
    requires !Clear(lines, path) && forall i: nat, j: nat :: !IsBlock(lines, path, i, j)
    ensures ParseLines(lines, path) == Malformed
  {
  }

  /** Where line `k` begins. */
  function Offset(lines: seq<string>, k: nat): nat {
    if k <= |lines| then |Flat(lines[..k])| else 0
  }

  /** The positions below `n` that are marked. */
  function Positions(marks: seq<bool>, n: nat): seq<nat>
    requires n <= |marks|
  {
    if n == 0 then [] else Positions(marks, n - 1) + (if marks[n - 1] then [n - 1] else [])
  }

  lemma {:induction false} PositionsExact(marks: seq<bool>, n: nat)
    requires n <= |marks|
    ensures forall m :: m in Positions(marks, n) <==> 0 <= m < n && marks[m]
    ensures |Positions(marks, n)| > 1 ==>
              var last := |Positions(marks, n)| - 1;
              Positions(marks, n)[last - 1] < Positions(marks, n)[last]
  {
    if n > 0 {
      PositionsExact(marks, n - 1);
      var before := Positions(marks, n - 1);
      if before != [] {
        assert before[|before| - 1] in before;
      }
    }
  }

  /** One position is listed exactly when one line is marked. */
  lemma OnePosition(marks: seq<bool>)
    ensures Positions(marks, |marks|) == [] <==> forall m :: 0 <= m < |marks| ==> !marks[m]
    ensures |Positions(marks, |marks|)| == 1 ==>
              var k := Positions(marks, |marks|)[0];
              k < |marks| && marks[k] && forall m :: 0 <= m < |marks| && m != k ==> !marks[m]
    ensures |Positions(marks, |marks|)| > 1 ==>
              exists k, m :: 0 <= k < m < |marks| && marks[k] && marks[m]
  {
    var all := Positions(marks, |marks|);
    PositionsExact(marks, |marks|);
    if all != [] {
      assert all[|all| - 1] in all;
    }
    if |all| > 1 {
      assert all[|all| - 2] in all;
    }
    forall m | 0 <= m < |marks| && marks[m] ensures m in all {
    }
  }

  function StartMarks(lines: seq<string>, path: string): seq<bool> {
    seq(|lines|, i requires 0 <= i < |lines| => StartMarker(lines[i], path))
  }

  function EndMarks(lines: seq<string>, path: string): seq<bool> {
    seq(|lines|, i requires 0 <= i < |lines| => EndMarker(lines[i], path))
  }

  /** The collected positions decide the parse. */
  lemma PositionsDecide(lines: seq<string>, path: string)
    ensures
      var starts := Positions(StartMarks(lines, path), |lines|);
      var ends := Positions(EndMarks(lines, path), |lines|);
      && (starts == [] && ends == [] <==> Clear(lines, path))
      && (|starts| == 1 ==> starts[0] < |lines|) && (|ends| == 1 ==> ends[0] < |lines|)
      && (if |starts| == 1 && |ends| == 1 && starts[0] <= ends[0] then starts[0] < ends[0] && IsBlock(lines, path, starts[0], ends[0])
          else forall i: nat, j: nat :: !IsBlock(lines, path, i, j))
  {
    hide StartMarker, EndMarker, Positions;
    var s, e := StartMarks(lines, path), EndMarks(lines, path);
    OnePosition(s);
    OnePosition(e);
    var starts, ends := Positions(s, |lines|), Positions(e, |lines|);
    assert forall k :: 0 <= k < |lines| ==> lines[k] in lines;
    if |starts| == 1 && |ends| == 1 {
      MarkersDiffer(lines[starts[0]], path);
      assert s[starts[0]] && e[ends[0]];
      assert OnlyStart(lines, path, starts[0]) by {
        forall m | 0 <= m < |lines| && m != starts[0] ensures !StartMarker(lines[m], path) {
          assert !s[m];
        }
      }
      assert OnlyEnd(lines, path, ends[0]) by {
        forall m | 0 <= m < |lines| && m != ends[0] ensures !EndMarker(lines[m], path) {
          assert !e[m];
        }
      }
    }
    forall i: nat, j: nat | IsBlock(lines, path, i, j)
      ensures |starts| == 1 && |ends| == 1 && starts[0] == i && ends[0] == j
    {
      assert s[i] && e[j];
      assert forall m :: 0 <= m < |lines| && m != i ==> !s[m];
      assert forall m :: 0 <= m < |lines| && m != j ==> !e[m];
    }
    if starts == [] && ends == [] {
      forall line | line in lines ensures !StartMarker(line, path) && !EndMarker(line, path) {
        var k :| 0 <= k < |lines| && lines[k] == line;
        assert !s[k] && !e[k];
      }
    }
    if Clear(lines, path) {
      assert forall m :: 0 <= m < |lines| ==> !s[m] && !e[m];
    }
  }

  function OffsetsOf(lines: seq<string>, at: seq<nat>, past: nat): seq<nat> {
    seq(|at|, i requires 0 <= i < |at| => Offset(lines, at[i] + past))
  }

  /** One pass over the lines, keeping the offsets of the markers. */
  method CollectMarkers(lines: seq<string>, path: string) returns (starts: seq<nat>, ends: seq<nat>)
    ensures starts == OffsetsOf(lines, Positions(StartMarks(lines, path), |lines|), 0)
    ensures ends == OffsetsOf(lines, Positions(EndMarks(lines, path), |lines|), 1)
  {
    hide StartMarker, EndMarker, LineLength;
    starts, ends := [], [];
    ghost var startMarks, endMarks := StartMarks(lines, path), EndMarks(lines, path);
    var offset := 0;
    assert lines[..0] == [];
    for n := 0 to |lines|
      invariant offset == Offset(lines, n)
      invariant starts == OffsetsOf(lines, Positions(startMarks, n), 0)
      invariant ends == OffsetsOf(lines, Positions(endMarks, n), 1)
    {
      var line := lines[n];
      FlatPrefixStep(lines, n);
      if StartMarker(line, path) {
        starts := starts + [offset];
      }
      if EndMarker(line, path) {
        ends := ends + [offset + |line|];
      }
      offset := offset + |line|;
    }
  }

  /** The parser. */
  method ParseAppendBlock(text: string, path: string) returns (parsed: Parsed)
    ensures parsed == Parse(text, path)
  {
    hide StartMarker, EndMarker, IsBlock, Clear, LineLength, Lines, Flat, Positions, Cut;
    var lines := Lines(text, BREAKS);
    FlatOfLines(text, BREAKS);
    var starts, ends := CollectMarkers(lines, path);
    PositionsDecide(lines, path);
    ghost var s, e := Positions(StartMarks(lines, path), |lines|), Positions(EndMarks(lines, path), |lines|);
    if starts == [] && ends == [] {
      return Absent;
    }
    if |starts| == 1 && |ends| == 1 {
      OffsetsCompare(lines, s[0], e[0]);
    }
    if |starts| != 1 || |ends| != 1 || starts[0] >= ends[0] {
      NotParsed(lines, path);
      return Malformed;
    }
    Slices(lines, path, s[0], e[0]);
    var block := text[starts[0]..ends[0]];
    var parts := Lines(block, BREAKS);
    return Found(text[..starts[0]], block, Flat(parts[1..|parts| - 1]), text[ends[0]..]);
  }

  /** Slicing the text at the offsets gives the same pieces as slicing the lines. */
  lemma Slices(lines: seq<string>, path: string, i: nat, j: nat)
    requires i < j < |lines| && IsBlock(lines, path, i, j) && Cut(lines, BREAKS)
    ensures
      var text, from, to := Flat(lines), Offset(lines, i), Offset(lines, j + 1);
      && from <= to <= |text|
      && |Lines(text[from..to], BREAKS)| >= 2
      && ParseLines(lines, path)
         == var parts := Lines(text[from..to], BREAKS);
            Found(text[..from], text[from..to], Flat(parts[1..|parts| - 1]), text[to..])
  {
    hide StartMarker, EndMarker, LineLength, Lines, Flat, IsBlock, ParseLines, Cut;
    ParsedAt(lines, path, i, j);
    SliceOfFlat(lines, i, j + 1);
    CutPart(lines, i, j + 1, BREAKS);
    LinesOfFlat(lines[i..j + 1], BREAKS);
    assert lines[i..j + 1][1..j - i] == lines[i + 1..j];
  }

  /** A start offset is below an end offset exactly when its line is not after the end's line. */
  lemma OffsetsCompare(lines: seq<string>, i: nat, j: nat)
    requires i < |lines| && j < |lines| && Cut(lines, BREAKS)
    ensures |Flat(lines[..i])| < |Flat(lines[..j + 1])| <==> i <= j
  {
    FlatPrefixStep(lines, j);
    if i <= j {
      SliceOfFlat(lines, i, j);
    } else {
      SliceOfFlat(lines, j + 1, i);
    }
  }

  // ---------------------------------------------------------------------- rendering

  function NormalizePayload(text: string): string {
    if text != "" && text[|text| - 1] == '\n' then NormalizePayload(text[..|text| - 1]) else text + "\n"
  }

  function Render(path: string, version: string, source: string): string {
    StartPrefix(path) + version + "\n" + NormalizePayload(source) + EndText(path) + "\n"
  }

  /** What every caller supplies: a version without spaces, a path on one line. */
  predicate GoodNames(path: string, version: string) {
    NoBreaks(path) && version != "" && NoSpaces(version)
  }

  function StartLine(path: string, version: string): string {
    StartPrefix(path) + version + "\n"
  }

  function EndLine(path: string): string {
    EndText(path) + "\n"
  }

  function PayloadLines(source: string): seq<string> {
    Lines(NormalizePayload(source), BREAKS)
  }

  function BlockLines(path: string, version: string, source: string): seq<string> {
    [StartLine(path, version)] + PayloadLines(source) + [EndLine(path)]
  }

  lemma {:induction false} NormalizedEnds(text: string)
    ensures NormalizePayload(text) != "" && NormalizePayload(text)[|NormalizePayload(text)| - 1] == '\n'
    ensures NormalizePayload(NormalizePayload(text)) == NormalizePayload(text)
  {
    if text != "" && text[|text| - 1] == '\n' {
      NormalizedEnds(text[..|text| - 1]);
    } else {
      assert (text + "\n")[..|text|] == text;
    }
  }

  lemma OneLine(body: string)
    requires NoBreaks(body)
    ensures IsLine(body + "\n", BREAKS) && Ended(body + "\n", BREAKS) && Strip(body + "\n") == body
  {
    var line := body + "\n";
    forall i | 0 <= i < |line| - 1 ensures line[i] !in BREAKS {
      assert line[i] == body[i] && body[i] in body;
    }
  }

  lemma PrintableHasNoBreaks(s: string)
    requires Printable(s)
    ensures NoBreaks(s)
  {
  }

  lemma MarkersArePrintable()
    ensures Printable(START) && Printable(END) && Printable(" v")
  {
  }

  lemma NoBreaksJoin(a: string, b: string)
    requires NoBreaks(a) && NoBreaks(b)
    ensures NoBreaks(a + b)
  {
  }

  lemma VersionHasNoBreaks(version: string)
    requires NoSpaces(version)
    ensures NoBreaks(version)
  {
  }

  lemma MarkerTextsHaveNoBreaks(path: string, version: string)
    requires GoodNames(path, version)
    ensures NoBreaks(StartPrefix(path) + version) && NoBreaks(EndText(path))
  {
    hide NoBreaks, NoSpaces, Printable;
    MarkersArePrintable();
    PrintableHasNoBreaks(START);
    PrintableHasNoBreaks(END);
    PrintableHasNoBreaks(" v");
    VersionHasNoBreaks(version);
    NoBreaksJoin(START, path);
    NoBreaksJoin(START + path, " v");
    NoBreaksJoin(StartPrefix(path), version);
    NoBreaksJoin(END, path);
  }

  /** The rendered block, cut into lines: the two markers around the payload's lines. */
  lemma BlockIsItsLines(path: string, version: string, source: string)
    requires GoodNames(path, version)
    ensures Flat(BlockLines(path, version, source)) == Render(path, version, source)
    ensures Cut(BlockLines(path, version, source), BREAKS) && AllEnded(BlockLines(path, version, source), BREAKS)
    ensures StartMarker(StartLine(path, version), path) && EndMarker(EndLine(path), path)
  {
    MarkerLinesAreLines(path, version);
    BodyIsItsLines(source);
    hide StartMarker, EndMarker, StartLine, EndLine, NormalizePayload, IsLine, PayloadLines, GoodNames, Flat, Render,
      BlockLines;
    var first, body, last := [StartLine(path, version)], PayloadLines(source), [EndLine(path)];
    assert BlockLines(path, version, source) == first + body + last by {
      BlockLinesAre(path, version, source);
    }
    CutJoin(first, body, BREAKS);
    CutJoin(first + body, last, BREAKS);
    FlatJoin(first + body, last);
    FlatJoin(first, body);
    FlatOne(StartLine(path, version));
    FlatOne(EndLine(path));
    AssembleBlock(path, version, source);
  }

  lemma BlockLinesAre(path: string, version: string, source: string)
    ensures BlockLines(path, version, source) == [StartLine(path, version)] + PayloadLines(source) + [EndLine(path)]
  {
  }

  lemma MarkerLinesAreLines(path: string, version: string)
    requires GoodNames(path, version)
    ensures StartMarker(StartLine(path, version), path) && EndMarker(EndLine(path), path)
    ensures IsLine(StartLine(path, version), BREAKS) && Ended(StartLine(path, version), BREAKS)
    ensures IsLine(EndLine(path), BREAKS) && Ended(EndLine(path), BREAKS)
  {
    MarkerTextsHaveNoBreaks(path, version);
    OneLine(StartPrefix(path) + version);
    OneLine(EndText(path));
    assert (StartPrefix(path) + version)[|StartPrefix(path)|..] == version;
  }

  lemma BodyIsItsLines(source: string)
    ensures Flat(PayloadLines(source)) == NormalizePayload(source)
    ensures Cut(PayloadLines(source), BREAKS) && AllEnded(PayloadLines(source), BREAKS)
  {
    NormalizedEnds(source);
    EndedText(NormalizePayload(source), BREAKS);
    FlatOfLines(NormalizePayload(source), BREAKS);
  }

  lemma AssembleBlock(path: string, version: string, source: string)
    ensures StartLine(path, version) + NormalizePayload(source) + EndLine(path) == Render(path, version, source)
  {
  }

  // --------------------------------------------------------------- placing a block

  /** A text of whole lines, none of them a marker. */
  ghost predicate Quiet(text: string, path: string) {
    Clear(Lines(text, BREAKS), path)
  }

  lemma ClearJoin(a: seq<string>, b: seq<string>, path: string)
    ensures Clear(a + b, path) <==> Clear(a, path) && Clear(b, path)
  {
    hide StartMarker, EndMarker;
    if Clear(a + b, path) {
      assert forall line :: line in a ==> line in a + b;
      assert forall line :: line in b ==> line in a + b;
    }
  }

  lemma QuietJoin(a: string, b: string, path: string)
    requires WholeLines(a, BREAKS)
    ensures Quiet(a + b, path) <==> Quiet(a, path) && Quiet(b, path)
  {
    hide Lines, Clear;
    LinesJoin(a, b, BREAKS);
    ClearJoin(Lines(a, BREAKS), Lines(b, BREAKS), path);
  }

  lemma OnlyStartAmid(a: seq<string>, x: string, b: seq<string>, path: string)
    requires StartMarker(x, path)
    requires forall line :: line in a || line in b ==> !StartMarker(line, path)
    ensures OnlyStart(a + [x] + b, path, |a|)
  {
    hide StartMarker;
    var lines := a + [x] + b;
    forall m | 0 <= m < |lines| && m != |a| ensures !StartMarker(lines[m], path) {
      assert lines[m] in a || lines[m] in b;
    }
  }

  lemma OnlyEndAmid(a: seq<string>, x: string, b: seq<string>, path: string)
    requires EndMarker(x, path)
    requires forall line :: line in a || line in b ==> !EndMarker(line, path)
    ensures OnlyEnd(a + [x] + b, path, |a|)
  {
    hide EndMarker;
    var lines := a + [x] + b;
    forall m | 0 <= m < |lines| && m != |a| ensures !EndMarker(lines[m], path) {
      assert lines[m] in a || lines[m] in b;
    }
  }

  /** Two marker lines with nothing but quiet lines around them make a block. */
  lemma SandwichIsBlock(pre: seq<string>, x: string, body: seq<string>, y: string, post: seq<string>, path: string)
    requires StartMarker(x, path) && EndMarker(y, path)
    requires Clear(pre, path) && Clear(body, path) && Clear(post, path)
    ensures IsBlock(pre + ([x] + body + [y]) + post, path, |pre|, |pre| + 1 + |body|)
  {
    hide StartMarker, EndMarker, OnlyStart, OnlyEnd;
    var lines := pre + ([x] + body + [y]) + post;
    MarkersDiffer(x, path);
    MarkersDiffer(y, path);
    OnlyStartAmid(pre, x, body + [y] + post, path);
    OnlyEndAmid(pre + [x] + body, y, post, path);
    assert lines == pre + [x] + (body + [y] + post);
    assert lines == (pre + [x] + body) + [y] + post;
  }

  /** One more marker line inside spoils it. */
  lemma SpoiledSandwich(pre: seq<string>, x: string, body: seq<string>, y: string, post: seq<string>, path: string)
    requires StartMarker(x, path) && EndMarker(y, path) && !Clear(body, path)
    ensures ParseLines(pre + ([x] + body + [y]) + post, path) == Malformed
  {
    hide StartMarker, EndMarker;
    var lines := pre + ([x] + body + [y]) + post;
    var i, j := |pre|, |pre| + 1 + |body|;
    assert lines[i] == x && lines[j] == y && x in lines;
    var line :| line in body && (StartMarker(line, path) || EndMarker(line, path));
    var k :| 0 <= k < |body| && body[k] == line;
    assert lines[i + 1 + k] == line;
    NotParsed(lines, path);
  }

  lemma SandwichPieces(pre: seq<string>, mid: seq<string>, post: seq<string>)
    ensures
      var lines := pre + mid + post;
      && lines[..|pre|] == pre && lines[|pre|..|pre| + |mid|] == mid && lines[|pre| + |mid|..] == post
  {
  }

  /** The lines of a text with a rendered block in it. */
  lemma PlacedLines(before: string, path: string, version: string, source: string, after: string)
    requires GoodNames(path, version) && WholeLines(before, BREAKS)
    ensures Lines(before + Render(path, version, source) + after, BREAKS)
         == Lines(before, BREAKS) + BlockLines(path, version, source) + Lines(after, BREAKS)
  {
    var block := Render(path, version, source);
    var mid := BlockLines(path, version, source);
    BlockIsItsLines(path, version, source);
    RenderIsWhole(path, version, source);
    hide Lines, LineLength, BlockLines, GoodNames, Flat, Render, Cut, AllEnded, BREAKS;
    LinesOfFlat(mid, BREAKS);
    LinesJoin(before, block, BREAKS);
    WholeJoin(before, block, BREAKS);
    LinesJoin(before + block, after, BREAKS);
  }

  /** The block between two quiet texts is found again, exactly when its payload has no marker line. */
  lemma PlacedBlockParses(before: string, path: string, version: string, source: string, after: string)
    requires GoodNames(path, version)
    requires WholeLines(before, BREAKS) && Quiet(before, path) && Quiet(after, path)
    ensures
      var block := Render(path, version, source);
      Parse(before + block + after, path)
      == if Clear(PayloadLines(source), path) then Found(before, block, NormalizePayload(source), after) else Malformed
  {
    PlacedLines(before, path, version, source, after);
    BlockIsItsLines(path, version, source);
    BlockLinesAre(path, version, source);
    FlatOfLines(before, BREAKS);
    FlatOfLines(after, BREAKS);
    BodyIsItsLines(source);
    var pre, post, body := Lines(before, BREAKS), Lines(after, BREAKS), PayloadLines(source);
    var x, y := StartLine(path, version), EndLine(path);
    hide StartMarker, EndMarker, StartLine, EndLine, Lines, Render, GoodNames, Cut, AllEnded, IsBlock, Flat,
      WholeLines, NormalizePayload, Clear, ParseLines, BlockLines, PayloadLines, FoundAt;
    SandwichParses(pre, x, body, y, post, path);
  }

  lemma SandwichParses(pre: seq<string>, x: string, body: seq<string>, y: string, post: seq<string>, path: string)
    requires StartMarker(x, path) && EndMarker(y, path) && Clear(pre, path) && Clear(post, path)
    ensures ParseLines(pre + ([x] + body + [y]) + post, path)
         == if Clear(body, path) then Found(Flat(pre), Flat([x] + body + [y]), Flat(body), Flat(post)) else Malformed
  {
    hide *;
    var lines := pre + ([x] + body + [y]) + post;
    if Clear(body, path) {
      SandwichIsBlock(pre, x, body, y, post, path);
      ParsedAt(lines, path, |pre|, |pre| + 1 + |body|);
      FoundInSandwich(pre, x, body, y, post);
    } else {
      SpoiledSandwich(pre, x, body, y, post, path);
    }
  }

  lemma FoundInSandwich(pre: seq<string>, x: string, body: seq<string>, y: string, post: seq<string>)
    ensures FoundAt(pre + ([x] + body + [y]) + post, |pre|, |pre| + 1 + |body|)
         == Found(Flat(pre), Flat([x] + body + [y]), Flat(body), Flat(post))
  {
    hide Flat;
    var mid := [x] + body + [y];
    var lines := pre + mid + post;
    SandwichPieces(pre, mid, post);
    assert lines[|pre| + 1..|pre| + 1 + |body|] == body;
  }

  lemma RenderIsWhole(path: string, version: string, source: string)
    ensures WholeLines(Render(path, version, source), BREAKS) && Render(path, version, source) != ""
  {
  }

  /** What a found block says about the text around it. */
  lemma FoundMeans(text: string, path: string)
    requires Parse(text, path).Found?
    ensures
      var p := Parse(text, path);
      && text == p.before + p.block + p.after
      && WholeLines(p.before, BREAKS) && Quiet(p.before, path) && Quiet(p.after, path)
      && Quiet(p.before + p.after, path)
  {
    var lines := Lines(text, BREAKS);
    FlatOfLines(text, BREAKS);
    hide StartMarker, EndMarker, LineLength, Lines, Flat, WholeLines, Cut, Clear;
    var i: nat, j: nat :| IsBlock(lines, path, i, j);
    hide IsBlock, ParseLines;
    assert i < j < |lines| by {
      BlockInRange(lines, path, i, j);
    }
    ParsedAt(lines, path, i, j);
    SliceOfFlat(lines, i, j + 1);
    PartLines(lines, 0, i);
    PartLines(lines, j + 1, |lines|);
    assert lines[0..i] == lines[..i] && lines[j + 1..|lines|] == lines[j + 1..];
    SidesAreClear(lines, path, i, j);
    WholeFlat(lines, i);
    QuietJoin(Flat(lines[..i]), Flat(lines[j + 1..]), path);
    FlatThree(lines, i, j + 1);
  }

  lemma BlockInRange(lines: seq<string>, path: string, i: nat, j: nat)
    requires IsBlock(lines, path, i, j)
    ensures i < j < |lines|
  {
  }

  lemma PartLines(lines: seq<string>, i: nat, j: nat)
    requires Cut(lines, BREAKS) && i <= j <= |lines|
    ensures Lines(Flat(lines[i..j]), BREAKS) == lines[i..j]
  {
    CutPart(lines, i, j, BREAKS);
    LinesOfFlat(lines[i..j], BREAKS);
  }

  lemma SidesAreClear(lines: seq<string>, path: string, i: nat, j: nat)
    requires i < j < |lines| && IsBlock(lines, path, i, j)
    ensures Clear(lines[..i], path) && Clear(lines[j + 1..], path)
  {
    hide StartMarker, EndMarker;
    forall line | line in lines[..i] ensures !StartMarker(line, path) && !EndMarker(line, path) {
      var k :| 0 <= k < i && lines[k] == line;
    }
    forall line | line in lines[j + 1..] ensures !StartMarker(line, path) && !EndMarker(line, path) {
      var k :| j < k < |lines| && lines[k] == line;
    }
  }

  lemma WholeFlat(lines: seq<string>, i: nat)
    requires Cut(lines, BREAKS) && i < |lines|
    ensures WholeLines(Flat(lines[..i]), BREAKS)
  {
    if i > 0 {
      FlatPrefixStep(lines, i - 1);
    }
  }

  lemma AbsentMeans(text: string, path: string)
    ensures Parse(text, path).Absent? <==> Quiet(text, path)
  {
  }

  // ----------------------------------------------------------------------- planning

  /** What the manifest records of a file. A hash is modelled by the text it is the hash of. */
  datatype Info = Info(policy: string, applied: Option<string>, sha: Option<string>)

  datatype Plan = Plan(updated: Option<string>, proposed: string, applied: Option<string>, conflict: bool)

  function Sep(existing: string): string {
    var n := |existing|;
    if existing == "" || (n >= 2 && existing[n - 2] == '\n' && existing[n - 1] == '\n') then ""
    else if existing[n - 1] == '\n' then "\n" else "\n\n"
  }

  function Appended(existing: string, block: string): string {
    existing + Sep(existing) + block
  }

  function AppliedOf(info: Option<Info>): Option<string> {
    if info.Some? then info.value.applied else None
  }

  ghost function PlanFor(file: Option<string>, source: string, version: string, path: string, info: Option<Info>): Plan {
    var block := Render(path, version, Read(source));
    var conflict := Plan(None, block, None, true);
    if file.None? then Plan(Some(block), block, Some(block), false)
    else
      var text := Read(file.value);
      match Parse(text, path)
      case Malformed => conflict
      case Absent =>
        if info.Some? && info.value.policy == "managed" then
          if info.value.sha == Some(file.value) then Plan(Some(block), block, Some(block), false) else conflict
        else Plan(Some(Appended(text, block)), block, Some(block), false)
      case Found(before, current, payload, after) =>
        if AppliedOf(info).Some? && Some(current) != AppliedOf(info) then conflict
        else if AppliedOf(info).None? && current != block then conflict
        else if current == block then Plan(None, block, Some(block), false)
        else if NormalizePayload(payload) == NormalizePayload(Read(source)) then Plan(None, block, Some(current), false)
        else Plan(Some(before + block + after), block, Some(block), false)
  }

  method PlanManagedAppend(file: Option<string>, source: string, version: string, path: string, info: Option<Info>)
    returns (plan: Plan)
    ensures plan == PlanFor(file, source, version, path, info)
  {
    hide Parse, Render;
    var block := Render(path, version, Read(source));
    if file.None? {
      return Plan(Some(block), block, Some(block), false);
    }
    var text := Read(file.value);
    var parsed := ParseAppendBlock(text, path);
    if parsed.Malformed? {
      return Plan(None, block, None, true);
    }
    if parsed.Absent? {
      if info.Some? && info.value.policy == "managed" {
        if info.value.sha == Some(file.value) {
          return Plan(Some(block), block, Some(block), false);
        }
        return Plan(None, block, None, true);
      }
      return Plan(Some(Appended(text, block)), block, Some(block), false);
    }
    var recorded := AppliedOf(info);
    if recorded.Some? && parsed.block != recorded.value {
      return Plan(None, block, None, true);
    }
    if recorded.None? && parsed.block != block {
      return Plan(None, block, None, true);
    }
    if parsed.block == block {
      return Plan(None, block, Some(block), false);
    }
    if NormalizePayload(parsed.payload) == NormalizePayload(Read(source)) {
      return Plan(None, block, Some(parsed.block), false);
    }
    return Plan(Some(parsed.before + block + parsed.after), block, Some(block), false);
  }

  ghost function RetirementFor(file: Option<string>, path: string, info: Option<Info>): Plan {
    if file.None? then Plan(None, "", None, false)
    else
      match Parse(Read(file.value), path)
      case Malformed => Plan(None, "", None, true)
      case Absent => Plan(None, "", None, false)
      case Found(before, current, _, after) =>
        if AppliedOf(info) == Some(current) then Plan(Some(before + after), current, None, false)
        else Plan(None, current, None, true)
  }

  method PlanManagedAppendRetirement(file: Option<string>, path: string, info: Option<Info>) returns (plan: Plan)
    ensures plan == RetirementFor(file, path, info)
  {
    hide Parse;
    if file.None? {
      return Plan(None, "", None, false);
    }
    var parsed := ParseAppendBlock(Read(file.value), path);
    if parsed.Malformed? {
      return Plan(None, "", None, true);
    }
    if parsed.Absent? {
      return Plan(None, "", None, false);
    }
    var recorded := AppliedOf(info);
    if recorded.Some? && parsed.block != recorded.value {
      return Plan(None, parsed.block, None, true);
    }
    if recorded.None? {
      return Plan(None, parsed.block, None, true);
    }
    return Plan(Some(parsed.before + parsed.after), parsed.block, None, false);
  }

  // --------------------------------------------------------------------- whole runs

  /** One managed file and what the manifest records of it. */
  datatype Managed = Managed(file: Option<string>, info: Option<Info>)

  /** An upgrade that plans and, unless there is a conflict, writes the file and records the block. */
  ghost function Updated(m: Managed, source: string, version: string, path: string): Managed {
    var plan := PlanFor(m.file, source, version, path, m.info);
    if plan.conflict then m
    else
      var file := if plan.updated.Some? then plan.updated else m.file;
      Managed(file, Some(Info("managed-append", plan.applied, file)))
  }

  ghost function Retired(m: Managed, path: string): Managed {
    var plan := RetirementFor(m.file, path, m.info);
    if plan.conflict then m
    else Managed(if plan.updated.Some? then plan.updated else m.file, None)
  }

  datatype Event = Update(source: string, version: string) | Retire | UserEdit(file: Option<string>)

  ghost function Next(m: Managed, e: Event, path: string): Managed {
    match e
    case Update(source, version) => Updated(m, source, version, path)
    case Retire => Retired(m, path)
    case UserEdit(file) => m.(file := file)
  }

  function Text(file: Option<string>): string {
    if file.Some? then Read(file.value) else ""
  }

  /** The user's part of a text: all of it but the block. */
  ghost function UserText(text: string, path: string): string {
    match Parse(text, path)
    case Found(before, _, _, after) => before + after
    case _ => text
  }

  /** What is asked of an event: good names, and a payload without marker lines. */
  ghost predicate Admissible(e: Event, path: string) {
    e.Update? ==> GoodNames(path, e.version) && '\r' !in path && Clear(PayloadLines(Read(e.source)), path)
  }

  predicate NotConverted(m: Managed) {
    m.info.Some? ==> m.info.value.policy != "managed"
  }

  lemma SeparatedIsQuiet(text: string, path: string)
    requires Quiet(text, path)
    ensures WholeLines(text + Sep(text), BREAKS) && Quiet(text + Sep(text), path)
    ensures Sep(text + Sep(text)) == ""
  {
    if text != "" && text[|text| - 1] != '\n' {
      TerminatedIsQuiet(text, path);
      NewlineIsQuiet(path);
      assert text + "\n\n" == (text + "\n") + "\n";
      QuietJoin(text + "\n", "\n", path);
    } else if text != "" && Sep(text) == "\n" {
      NewlineIsQuiet(path);
      QuietJoin(text, "\n", path);
    } else {
      assert text + "" == text;
    }
  }

  lemma NewlineIsQuiet(path: string)
    ensures Quiet("\n", path)
  {
    FlatOne("\n");
    LinesOfFlat(["\n"], BREAKS);
    assert Strip("\n") == "";
  }

  /** Ending the last line with a newline makes no marker of it: a marker may also stand unterminated at the end. */
  lemma TerminatedIsQuiet(text: string, path: string)
    requires Quiet(text, path) && text != "" && text[|text| - 1] != '\n'
    ensures Quiet(text + "\n", path)
  {
    if WholeLines(text, BREAKS) {
      NewlineIsQuiet(path);
      QuietJoin(text, "\n", path);
    } else {
      var lines := Lines(text, BREAKS);
      FlatOfLines(text, BREAKS);
      var front, last := lines[..|lines| - 1], lines[|lines| - 1];
      LastLine(lines);
      assert last in lines;
      ClearLonger(front, last, path);
      var longer := front + [last + "\n"];
      assert longer[..|front|] == front;
      FlatJoin(front, [last + "\n"]);
      FlatOne(last + "\n");
      assert Flat(longer) == text + "\n";
      LastTerminated(lines);
      LinesOfFlat(longer, BREAKS);
    }
  }

  lemma ClearLonger(front: seq<string>, last: string, path: string)
    requires Clear(front + [last], path) && last != "" && last[|last| - 1] != '\n'
    ensures Clear(front + [last + "\n"], path)
  {
    assert Strip(last + "\n") == last == Strip(last);
    assert last in front + [last];
    ClearJoin(front, [last], path);
    ClearJoin(front, [last + "\n"], path);
  }

  lemma LastTerminated(lines: seq<string>)
    requires Cut(lines, BREAKS) && lines != [] && !Ended(lines[|lines| - 1], BREAKS)
    ensures Cut(lines[..|lines| - 1] + [lines[|lines| - 1] + "\n"], BREAKS)
  {
    var last := lines[|lines| - 1];
    assert IsLine(last + "\n", BREAKS);
  }

  lemma RenderHasNoReturn(path: string, version: string, source: string)
    requires GoodNames(path, version) && '\r' !in path && '\r' !in source
    ensures '\r' !in Render(path, version, source)
  {
    MarkersArePrintable();
    assert IsSpace('\r') && '\r' !in version;
    NormalizedHasNoReturn(source);
    PrintableHasNoReturn(START);
    PrintableHasNoReturn(END);
    PrintableHasNoReturn(" v");
    hide Printable, NoSpaces, NormalizePayload;
  }

  lemma PrintableHasNoReturn(s: string)
    requires Printable(s)
    ensures '\r' !in s
  {
  }

  lemma {:induction false} NormalizedHasNoReturn(text: string)
    requires '\r' !in text
    ensures '\r' !in NormalizePayload(text)
  {
    if text != "" && text[|text| - 1] == '\n' {
      NormalizedHasNoReturn(text[..|text| - 1]);
    }
  }

  /** A written text reads back as itself. */
  lemma WrittenReadsBack(text: string)
    requires '\r' !in text
    ensures Read(text) == text
  {
    ReadIsIdentityExactly(text);
  }

  /** How one update may change a file: not at all; by one separator and the block after it; or by a new block in place
      of one whose hash is the recorded one. */
  ghost predicate UpdateFrame(m: Managed, m': Managed, block: string, path: string) {
    || m'.file == m.file
    || (Parse(Text(m.file), path).Absent? && m'.file == Some(Appended(Text(m.file), block)))
    || (var p := Parse(Text(m.file), path);
        p.Found? && AppliedOf(m.info) == Some(p.block) && m'.file == Some(p.before + block + p.after))
  }

  /** Where a new block goes. */
  ghost function Placed(text: string, block: string, path: string): string {
    var p := Parse(text, path);
    if p.Found? then p.before + block + p.after else Appended(text, block)
  }

  ghost function Surroundings(text: string, path: string): (string, string) {
    var p := Parse(text, path);
    if p.Found? then (p.before, p.after) else (text + Sep(text), "")
  }

  lemma PlacedParses(text: string, path: string, version: string, payload: string)
    requires GoodNames(path, version) && '\r' !in path && '\r' !in payload && '\r' !in text
    requires Clear(PayloadLines(payload), path) && !Parse(text, path).Malformed?
    ensures
      var block := Render(path, version, payload);
      var (before, after) := Surroundings(text, path);
      && Parse(Placed(text, block, path), path) == Found(before, block, NormalizePayload(payload), after)
      && Read(Placed(text, block, path)) == Placed(text, block, path)
  {
    RenderHasNoReturn(path, version, payload);
    if Parse(text, path).Found? {
      hide Render, GoodNames, PayloadLines;
      PlacedForOld(text, path, version, payload);
    } else {
      hide Render, GoodNames, PayloadLines;
      AbsentMeans(text, path);
      hide Parse;
      PlacedAfter(text, path, version, payload);
    }
  }

  lemma PlacedForOld(text: string, path: string, version: string, payload: string)
    requires GoodNames(path, version) && '\r' !in text && '\r' !in Render(path, version, payload)
    requires Clear(PayloadLines(payload), path) && Parse(text, path).Found?
    ensures
      var block, p := Render(path, version, payload), Parse(text, path);
      && Parse(p.before + block + p.after, path) == Found(p.before, block, NormalizePayload(payload), p.after)
      && Read(p.before + block + p.after) == p.before + block + p.after
  {
    FoundMeans(text, path);
    var p := Parse(text, path);
    hide Parse, Render, GoodNames, PayloadLines, Quiet, WholeLines;
    PlacedBlockParses(p.before, path, version, payload, p.after);
    WrittenReadsBack(p.before + Render(path, version, payload) + p.after);
  }

  lemma PlacedAfter(text: string, path: string, version: string, payload: string)
    requires GoodNames(path, version) && '\r' !in text && '\r' !in Render(path, version, payload)
    requires Clear(PayloadLines(payload), path) && Quiet(text, path)
    ensures
      var block := Render(path, version, payload);
      && Parse(Appended(text, block), path) == Found(text + Sep(text), block, NormalizePayload(payload), "")
      && Read(Appended(text, block)) == Appended(text, block)
  {
    EmptyIsQuiet(path);
    SeparatedIsQuiet(text, path);
    hide Parse, Render, GoodNames, PayloadLines, Quiet, WholeLines;
    var block := Render(path, version, payload);
    PlacedBlockParses(text + Sep(text), path, version, payload, "");
    assert Appended(text, block) == text + Sep(text) + block + "";
    WrittenReadsBack(Appended(text, block));
  }

  /** A changed file is the old text with the new block placed in it. */
  lemma ChangedMeansPlaced(m: Managed, source: string, version: string, path: string)
    requires NotConverted(m) && PlanFor(m.file, source, version, path, m.info).updated.Some?
    ensures
      var block := Render(path, version, Read(source));
      && !Parse(Text(m.file), path).Malformed?
      && Updated(m, source, version, path).file == Some(Placed(Text(m.file), block, path))
      && AppliedOf(Updated(m, source, version, path).info) == Some(block)
      && (Parse(Text(m.file), path).Found? ==> AppliedOf(m.info) == Some(Parse(Text(m.file), path).block))
  {
    EmptyIsQuiet(path);
    AbsentMeans("", path);
    hide Parse, Render, Read, NormalizePayload;
    var block := Render(path, version, Read(source));
    if m.file.None? {
      assert Appended("", block) == block;
    }
  }

  /** What an update leaves: the block it rendered found again, with the user's text around it. */
  lemma UpdateLeaves(m: Managed, source: string, version: string, path: string)
    requires NotConverted(m) && Admissible(Update(source, version), path)
    ensures UpdateFrame(m, Updated(m, source, version, path), Render(path, version, Read(source)), path)
    ensures Updated(m, source, version, path).file != m.file ==>
              PlanFor(m.file, source, version, path, m.info).updated.Some?
    ensures PlanFor(m.file, source, version, path, m.info).updated.Some? ==>
              var block := Render(path, version, Read(source));
              var (before, after) := Surroundings(Text(m.file), path);
              && Parse(Text(Updated(m, source, version, path).file), path)
                 == Found(before, block, NormalizePayload(Read(source)), after)
              && AppliedOf(Updated(m, source, version, path).info) == Some(block)
  {
    if PlanFor(m.file, source, version, path, m.info).updated.Some? {
      ReadHasNoReturn(source);
      if m.file.Some? {
        ReadHasNoReturn(m.file.value);
      }
      ChangedMeansPlaced(m, source, version, path);
      PlacedParses(Text(m.file), path, version, Read(source));
    }
    hide Parse, Render, Read, NormalizePayload, GoodNames, PayloadLines, Updated;
  }

  /** The one plan that drops user text: a file recorded as wholly managed, unedited since, is replaced by the block. */
  lemma ConvertedFileIsReplaced(m: Managed, source: string, version: string, path: string)
    requires m.file.Some? && m.info.Some? && m.info.value.policy == "managed" && Parse(Text(m.file), path).Absent?
    ensures PlanFor(m.file, source, version, path, m.info).conflict <==> m.info.value.sha != m.file
    ensures m.info.value.sha == m.file ==>
              Updated(m, source, version, path).file == Some(Render(path, version, Read(source)))
  {
    hide Parse, Render, Read;
  }

  lemma EmptyIsQuiet(path: string)
    ensures Quiet("", path) && Read("") == ""
  {
  }

  /** An update that met no conflict has nothing left to do: planning it again changes nothing and is no conflict. */
  lemma ReplanIsNoop(m: Managed, source: string, version: string, path: string)
    requires NotConverted(m) && Admissible(Update(source, version), path)
    requires !PlanFor(m.file, source, version, path, m.info).conflict
    ensures
      var m' := Updated(m, source, version, path);
      var again := PlanFor(m'.file, source, version, path, m'.info);
      again.updated == None && !again.conflict && Updated(m', source, version, path) == m'
  {
    UpdateLeaves(m, source, version, path);
    NormalizedEnds(Read(source));
    PlanCases(m.file, source, version, path, m.info);
    hide Parse, Render, Read, NormalizePayload, GoodNames, PayloadLines, UpdateFrame, PlanFor, Admissible;
    var m' := Updated(m, source, version, path);
    SettledIsNoop(m', source, version, path);
  }

  /** A plan without conflict that writes nothing found a block that will do. */
  lemma PlanCases(file: Option<string>, source: string, version: string, path: string, info: Option<Info>)
    ensures
      var plan := PlanFor(file, source, version, path, info);
      var block := Render(path, version, Read(source));
      !plan.conflict && plan.updated.None? ==>
        && file.Some? && Parse(Read(file.value), path).Found?
        && var p := Parse(Read(file.value), path);
           && plan.applied == Some(p.block)
           && (p.block == block || NormalizePayload(p.payload) == NormalizePayload(Read(source)))
    ensures PlanFor(file, source, version, path, info).updated.Some? ==>
              !PlanFor(file, source, version, path, info).conflict
  {
    hide Parse, Render, Read, NormalizePayload;
  }

  /** A recorded block that is current, or whose payload is. */
  lemma SettledIsNoop(m: Managed, source: string, version: string, path: string)
    requires m.file.Some? && Parse(Text(m.file), path).Found?
    requires
      var p := Parse(Text(m.file), path);
      AppliedOf(m.info) == Some(p.block) && (p.block == Render(path, version, Read(source))
      || NormalizePayload(p.payload) == NormalizePayload(Read(source)))
    ensures PlanFor(m.file, source, version, path, m.info)
         == Plan(None, Render(path, version, Read(source)), Some(Parse(Text(m.file), path).block), false)
  {
    hide Parse, Render, Read, NormalizePayload;
  }

  /** Retirement removes only a block whose hash is the recorded one, and nothing around it. */
  lemma RetirementLeaves(m: Managed, path: string)
    ensures Retired(m, path).file != m.file ==>
              var p := Parse(Text(m.file), path);
              && p.Found? && AppliedOf(m.info) == Some(p.block)
              && Retired(m, path).file == Some(p.before + p.after)
              && Text(Retired(m, path).file) == p.before + p.after
              && Parse(p.before + p.after, path) == Absent
  {
    if Retired(m, path).file != m.file {
      var t := Text(m.file);
      FoundMeans(t, path);
      ReadHasNoReturn(m.file.value);
      var p := Parse(t, path);
      hide Parse;
      WrittenReadsBack(p.before + p.after);
      AbsentMeans(p.before + p.after, path);
    }
  }

  /** The user's text is the one last left by the user, at most followed by one separator. */
  ghost predicate Kept(m: Managed, left: string, path: string) {
    var now := UserText(Text(m.file), path);
    now == left || (now == left + Sep(left) && left != "")
  }

  ghost function Run(m: Managed, events: seq<Event>, path: string): Managed {
    if events == [] then m else Next(Run(m, events[..|events| - 1], path), events[|events| - 1], path)
  }

  /** The user's text as of the last edit by the user. */
  ghost function LastLeft(m: Managed, events: seq<Event>, path: string): string {
    if events == [] then UserText(Text(m.file), path)
    else
      var e := events[|events| - 1];
      if e.UserEdit? then UserText(Text(e.file), path) else LastLeft(m, events[..|events| - 1], path)
  }

  lemma StepKeeps(m: Managed, e: Event, left: string, path: string)
    requires NotConverted(m) && Admissible(e, path) && !e.UserEdit? && Kept(m, left, path)
    ensures NotConverted(Next(m, e, path)) && Kept(Next(m, e, path), left, path)
  {
    var t := Text(m.file);
    if e.Update? {
      UpdateLeaves(m, e.source, e.version, path);
    } else {
      RetirementLeaves(m, path);
    }
    if Next(m, e, path).file != m.file {
      AbsentMeans(t, path);
      EmptyIsQuiet(path);
      if Parse(t, path).Absent? {
        SeparatedIsQuiet(t, path);
        SeparatorOnce(t, left);
      }
    }
  }

  lemma SeparatorOnce(t: string, left: string)
    requires t == left || (t == left + Sep(left) && left != "")
    ensures t + Sep(t) + "" == left || (t + Sep(t) + "" == left + Sep(left) && left != "")
  {
    if t != left {
      assert Sep(t) == "";
      assert t + "" + "" == t;
    } else if left == "" {
      assert Sep(t) == "";
    }
  }

  /** Over any run of updates from changing sources and versions, user edits, and retirements: what lies outside the
      block is what the user last left, plus at most one separator, however often the block came and went. */
  lemma {:induction false} RunKeepsUserText(m: Managed, events: seq<Event>, path: string)
    requires NotConverted(m)
    requires forall e :: e in events ==> Admissible(e, path)
    ensures NotConverted(Run(m, events, path))
    ensures Kept(Run(m, events, path), LastLeft(m, events, path), path)
  {
    if events != [] {
      var front, e := events[..|events| - 1], events[|events| - 1];
      RunKeepsUserText(m, front, path);
      assert e in events;
      if !e.UserEdit? {
        StepKeeps(Run(m, front, path), e, LastLeft(m, front, path), path);
      }
    }
  }
}
