/** Cutting a text into lines that keep their terminators, and putting lines back together. */
module TextLines {
  import opened Prelude

  /** The length of the first line, terminator included. */
  function LineLength(text: string, breaks: set<char>): (n: nat)
    ensures n <= |text| && (text != "" ==> n > 0)
  {
    if text == "" then 0 else if text[0] in breaks then 1 else 1 + LineLength(text[1..], breaks)
  }

  function Lines(text: string, breaks: set<char>): seq<string> {
    if text == "" then [] else
      var n := LineLength(text, breaks);
      [text[..n]] + Lines(text[n..], breaks)
  }

  function Flat(lines: seq<string>): string {
    if lines == [] then "" else lines[0] + Flat(lines[1..])
  }

  predicate Ended(line: string, breaks: set<char>) {
    line != "" && line[|line| - 1] in breaks
  }

  /** One line: a terminator only at its end. */
  predicate IsLine(line: string, breaks: set<char>) {
    line != "" && forall i :: 0 <= i < |line| - 1 ==> line[i] !in breaks
  }

  /** Lines as a text is cut into: only the last may lack its terminator. */
  predicate Cut(lines: seq<string>, breaks: set<char>) {
    && (forall k :: 0 <= k < |lines| ==> IsLine(lines[k], breaks))
    && (forall k :: 0 <= k < |lines| - 1 ==> Ended(lines[k], breaks))
  }

  lemma {:induction false} LineLengthOfLine(line: string, rest: string, breaks: set<char>)
    requires IsLine(line, breaks) && (Ended(line, breaks) || rest == "")
    ensures LineLength(line + rest, breaks) == |line|
  {
    var text := line + rest;
    if |line| > 1 {
      var tail := line[1..];
      assert line[0] !in breaks;
      assert IsLine(tail, breaks) by {
        forall i | 0 <= i < |tail| - 1 ensures tail[i] !in breaks {
          assert tail[i] == line[i + 1];
        }
      }
      assert text[1..] == tail + rest;
      LineLengthOfLine(tail, rest, breaks);
    }
  }

  /** Cutting undoes putting together. */
  lemma {:induction false} LinesOfFlat(lines: seq<string>, breaks: set<char>)
    requires Cut(lines, breaks)
    ensures Lines(Flat(lines), breaks) == lines
  {
    if lines != [] {
      var rest := lines[1..];
      assert Cut(rest, breaks) by {
        forall k | 0 <= k < |rest| ensures IsLine(rest[k], breaks) {
          assert rest[k] == lines[k + 1];
        }
        forall k | 0 <= k < |rest| - 1 ensures Ended(rest[k], breaks) {
          assert rest[k] == lines[k + 1];
        }
      }
      LinesOfFlat(rest, breaks);
      LineLengthOfLine(lines[0], Flat(rest), breaks);
      assert Flat(lines)[|lines[0]|..] == Flat(rest);
      assert Flat(lines)[..|lines[0]|] == lines[0];
    }
  }

  lemma {:induction false} FirstLine(text: string, breaks: set<char>)
    requires text != ""
    ensures
      var n := LineLength(text, breaks);
      IsLine(text[..n], breaks) && (n < |text| ==> Ended(text[..n], breaks))
  {
    if text[0] !in breaks && |text| > 1 {
      FirstLine(text[1..], breaks);
      var n := LineLength(text[1..], breaks);
      assert text[..n + 1] == [text[0]] + text[1..][..n];
      assert LineLength(text, breaks) == n + 1;
      var first := text[..n + 1];
      forall i | 0 <= i < n ensures first[i] !in breaks {
        if i > 0 {
          assert first[i] == text[1..][..n][i - 1];
        }
      }
    }
  }

  /** Putting together undoes cutting. */
  lemma {:induction false} FlatOfLines(text: string, breaks: set<char>)
    ensures Flat(Lines(text, breaks)) == text && Cut(Lines(text, breaks), breaks)
  {
    if text != "" {
      var n := LineLength(text, breaks);
      FirstLine(text, breaks);
      FlatOfLines(text[n..], breaks);
      var rest := Lines(text[n..], breaks);
      assert Lines(text, breaks) == [text[..n]] + rest;
      assert text == text[..n] + text[n..];
      if rest != [] {
        assert n < |text|;
      }
      CutJoin([text[..n]], rest, breaks);
    }
  }

  lemma {:induction false} FlatJoin(a: seq<string>, b: seq<string>)
    ensures Flat(a + b) == Flat(a) + Flat(b)
  {
    if a == [] {
      assert a + b == b;
    } else {
      FlatJoin(a[1..], b);
      assert (a + b)[1..] == a[1..] + b;
    }
  }

  lemma CutPart(lines: seq<string>, i: nat, j: nat, breaks: set<char>)
    requires Cut(lines, breaks) && i <= j <= |lines|
    ensures Cut(lines[i..j], breaks)
  {
    forall k | 0 <= k < j - i ensures lines[i..j][k] == lines[i + k] {
    }
  }

  /** Every line has its terminator. */
  predicate AllEnded(lines: seq<string>, breaks: set<char>) {
    forall k :: 0 <= k < |lines| ==> Ended(lines[k], breaks)
  }

  lemma CutJoin(a: seq<string>, b: seq<string>, breaks: set<char>)
    requires Cut(a, breaks) && Cut(b, breaks) && (AllEnded(a, breaks) || b == [])
    ensures Cut(a + b, breaks)
  {
  }

  // --------------------------------------------------------------- reading a file

  /** Universal newlines: what reading a file in text mode makes of its contents. */
  function Read(raw: string): string {
    if raw == "" then ""
    else if raw[0] == '\r' then "\n" + Read(if |raw| > 1 && raw[1] == '\n' then raw[2..] else raw[1..])
    else [raw[0]] + Read(raw[1..])
  }

  lemma {:induction false} ReadHasNoReturn(raw: string)
    ensures '\r' !in Read(raw) && |Read(raw)| <= |raw|
  {
    if raw != "" {
      ReadHasNoReturn(if raw[0] == '\r' && |raw| > 1 && raw[1] == '\n' then raw[2..] else raw[1..]);
    }
  }

  /** Reading and writing back leaves the bytes alone exactly when there is no carriage return. */
  lemma {:induction false} ReadIsIdentityExactly(raw: string)
    ensures Read(raw) == raw <==> '\r' !in raw
  {
    ReadHasNoReturn(raw);
    if raw != "" && raw[0] != '\r' {
      ReadIsIdentityExactly(raw[1..]);
      assert raw == [raw[0]] + raw[1..];
      assert Read(raw)[1..] == Read(raw[1..]);
    }
  }

  function Strip(line: string): string {
    if line != "" && line[|line| - 1] == '\n' then line[..|line| - 1] else line
  }

  lemma FlatPrefixStep(lines: seq<string>, k: nat)
    requires k < |lines|
    ensures Flat(lines[..k + 1]) == Flat(lines[..k]) + lines[k]
  {
    FlatJoin(lines[..k], [lines[k]]);
    assert lines[..k + 1] == lines[..k] + [lines[k]];
    assert Flat([lines[k]]) == lines[k] + Flat([]);
  }

  lemma FlatAll(lines: seq<string>, k: nat)
    requires k <= |lines|
    ensures Flat(lines) == Flat(lines[..k]) + Flat(lines[k..])
  {
    FlatJoin(lines[..k], lines[k..]);
    assert lines == lines[..k] + lines[k..];
  }

  lemma SliceOfFlat(lines: seq<string>, i: nat, j: nat)
    requires i <= j <= |lines|
    ensures |Flat(lines[..i])| <= |Flat(lines[..j])| <= |Flat(lines)|
    ensures Flat(lines)[..|Flat(lines[..i])|] == Flat(lines[..i])
    ensures Flat(lines)[|Flat(lines[..i])|..|Flat(lines[..j])|] == Flat(lines[i..j])
    ensures Flat(lines)[|Flat(lines[..j])|..] == Flat(lines[j..])
  {
    FlatAll(lines, i);
    FlatAll(lines, j);
    FlatAll(lines[..j], i);
    assert lines[..j][..i] == lines[..i] && lines[..j][i..] == lines[i..j];
  }

  lemma FlatOne(line: string)
    ensures Flat([line]) == line
  {
    assert Flat([line]) == line + Flat([]);
  }

  lemma FlatThree(lines: seq<string>, i: nat, j: nat)
    requires i <= j <= |lines|
    ensures Flat(lines) == Flat(lines[..i]) + Flat(lines[i..j]) + Flat(lines[j..])
  {
    hide Flat;
    FlatAll(lines, j);
    FlatAll(lines[..j], i);
    assert lines[..j][..i] == lines[..i] && lines[..j][i..] == lines[i..j];
  }

  lemma LastLine(lines: seq<string>)
    requires lines != []
    ensures Flat(lines) == Flat(lines[..|lines| - 1]) + lines[|lines| - 1]
  {
    FlatPrefixStep(lines, |lines| - 1);
    assert lines[..|lines| - 1 + 1] == lines;
  }

  predicate Printable(s: string) {
    forall i :: 0 <= i < |s| ==> ' ' <= s[i] <= '~'
  }

  /** Where `splitlines` ends a line; a carriage return cannot occur in a text that was read. */
  const BREAKS: set<char> :=
    {'\n', '\U{0B}', '\U{0C}', '\U{1C}', '\U{1D}', '\U{1E}', '\U{85}', '\U{2028}', '\U{2029}'}

  predicate IsSpace(c: char) {
    || c in BREAKS || c in {' ', '\t', '\r', '\U{1F}', '\U{A0}', '\U{1680}', '\U{202F}', '\U{205F}', '\U{3000}'}
    || '\U{2000}' <= c <= '\U{200A}'
  }

  predicate WholeLines(text: string, breaks: set<char>) {
    text == "" || text[|text| - 1] in breaks
  }

  lemma WholeJoin(a: string, b: string, breaks: set<char>)
    requires WholeLines(a, breaks) && WholeLines(b, breaks)
    ensures WholeLines(a + b, breaks)
  {
  }

  /** A text that ends with a line break is cut into lines that all end with one. */
  lemma EndedText(text: string, breaks: set<char>)
    requires WholeLines(text, breaks)
    ensures AllEnded(Lines(text, breaks), breaks)
  {
    var lines := Lines(text, breaks);
    FlatOfLines(text, breaks);
    if lines != [] {
      LastLine(lines);
      assert text[|text| - 1] == lines[|lines| - 1][|lines[|lines| - 1]| - 1];
    }
  }

  /** Texts joined at a line break are cut into the joined lines. */
  lemma LinesJoin(a: string, b: string, breaks: set<char>)
    requires WholeLines(a, breaks)
    ensures Lines(a + b, breaks) == Lines(a, breaks) + Lines(b, breaks)
  {
    hide LineLength, Lines, IsLine;
    FlatOfLines(a, breaks);
    FlatOfLines(b, breaks);
    EndedText(a, breaks);
    FlatJoin(Lines(a, breaks), Lines(b, breaks));
    CutJoin(Lines(a, breaks), Lines(b, breaks), breaks);
    LinesOfFlat(Lines(a, breaks) + Lines(b, breaks), breaks);
  }

  /** The first occurrence of a pattern. */
  function Find(text: string, pattern: string): (n: Option<nat>)
    ensures n.Some? ==> n.value + |pattern| <= |text|
    ensures n.Some? && pattern != "" ==> text[n.value] == pattern[0]
  {
    if pattern <= text then Some(0)
    else if text == "" then None
    else
      var rest := Find(text[1..], pattern);
      if rest.Some? then Some(rest.value + 1) else None
  }
}
