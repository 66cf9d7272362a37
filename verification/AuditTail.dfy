/** Reading the index of the last audit line backwards in chunks, and why it agrees with a full read. */
module AuditTail {
  import opened Prelude

  type Byte = b: nat | b < 256

  const NEWLINE: Byte := 10
  const CHUNK := 4096

  /** `split(b"\n")`: always one more piece than there are newlines. */
  function Pieces(text: seq<Byte>): (ps: seq<seq<Byte>>)
    ensures |ps| >= 1
  {
    if text == [] then [[]]
    else if text[0] == NEWLINE then [[]] + Pieces(text[1..])
    else
      var rest := Pieces(text[1..]);
      [[text[0]] + rest[0]] + rest[1..]
  }

  function CountNewlines(text: seq<Byte>): nat {
    if text == [] then 0 else (if text[0] == NEWLINE then 1 else 0) + CountNewlines(text[1..])
  }

  /** Nothing but whitespace. */
  predicate Blank(line: seq<Byte>) {
    forall i :: 0 <= i < |line| ==> line[i] in {9, 10, 11, 12, 13, 32}
  }

  /** How a line is decoded: the index it carries, or None when it is not valid JSON. */
  type Decoder = seq<Byte> -> Option<int>

  predicate Indexed(line: seq<Byte>, decode: Decoder) {
    !Blank(line) && decode(line).Some?
  }

  /** The last indexed piece decides; with none the answer is 0. */
  function LastIndexed(ps: seq<seq<Byte>>, decode: Decoder): int {
    if ps == [] then 0
    else
      var last := ps[|ps| - 1];
      if Indexed(last, decode) then decode(last).value else LastIndexed(ps[..|ps| - 1], decode)
  }

  lemma LastIndexedSnoc(ps: seq<seq<Byte>>, last: seq<Byte>, decode: Decoder)
    ensures LastIndexed(ps + [last], decode)
         == if Indexed(last, decode) then decode(last).value else LastIndexed(ps, decode)
  {
    assert (ps + [last])[..|ps|] == ps;
  }

  /** The plain reader: split the whole file. */
  function PlainLastIndex(text: seq<Byte>, decode: Decoder): int {
    LastIndexed(Pieces(text), decode)
  }

  predicate SomeIndexed(ps: seq<seq<Byte>>, decode: Decoder) {
    exists i :: 0 <= i < |ps| && Indexed(ps[i], decode)
  }

  /** The condition under which two newlines' worth of tail is enough: a line that decodes lies after the
      penultimate newline, or there is no penultimate newline. */
  predicate TailDecides(text: seq<Byte>, decode: Decoder) {
    var ps := Pieces(text);
    |ps| <= 2 || SomeIndexed(ps[|ps| - 2..], decode)
  }

  /** Where reading backwards stops, once everything from `end` on has been read: at the first chunk boundary with two
      newlines behind it, or at the beginning. */
  function TailStart(file: seq<Byte>, end: nat): (pos: nat)
    requires end <= |file|
    ensures pos <= end
    ensures end > 0 ==> pos == 0 || CountNewlines(file[pos..]) >= 2
  {
    if end == 0 then 0
    else
      var pos := if CHUNK < end then end - CHUNK else 0;
      if CountNewlines(file[pos..]) >= 2 then pos else TailStart(file, pos)
  }

  /** Read backwards in chunks until two newlines are there. */
  method ReadTail(file: seq<Byte>) returns (buf: seq<Byte>)
    ensures buf == file[TailStart(file, |file|)..]
  {
    hide CountNewlines;
    var pos := |file|;
    buf := [];
    while pos > 0
      invariant 0 <= pos <= |file|
      invariant buf == file[pos..]
      invariant TailStart(file, |file|) == TailStart(file, pos)
    {
      var read := if CHUNK < pos then CHUNK else pos;
      pos := pos - read;
      buf := file[pos..pos + read] + buf;
      assert buf == file[pos..];
      if CountNewlines(buf) >= 2 || pos == 0 {
        break;
      }
    }
  }

  /** The chunked backwards reader: the last index of the part read, and of the whole file when the tail decides. */
  method ReadLastIndex(file: seq<Byte>, decode: Decoder) returns (index: int)
    ensures index == PlainLastIndex(file[TailStart(file, |file|)..], decode)
    ensures TailDecides(file, decode) ==> index == PlainLastIndex(file, decode)
  {
    hide TailDecides, CountNewlines, TailStart, Pieces, Indexed, Blank;
    if |file| == 0 {
      EmptyFile(file, decode);
      return 0;
    }
    var buf := ReadTail(file);
    var pieces := Pieces(buf);
    if TailDecides(file, decode) {
      TailAgrees(file, TailStart(file, |file|), decode);
    }
    index := ScanBack(pieces, decode);
  }

  lemma EmptyFile(file: seq<Byte>, decode: Decoder)
    requires file == []
    ensures PlainLastIndex(file, decode) == 0 && TailStart(file, |file|) == 0 && file[0..] == file
  {
    assert Pieces(file) == [] + [[]] && Blank([]);
    LastIndexedSnoc([], [], decode);
  }

  /** The last piece that decodes; with none the answer is 0. */
  method ScanBack(pieces: seq<seq<Byte>>, decode: Decoder) returns (index: int)
    ensures index == LastIndexed(pieces, decode)
  {
    index := 0;
    var i := |pieces|;
    assert pieces[..i] == pieces;
    while i > 0
      invariant 0 <= i <= |pieces|
      invariant LastIndexed(pieces[..i], decode) == LastIndexed(pieces, decode)
    {
      i := i - 1;
      assert pieces[..i + 1] == pieces[..i] + [pieces[i]];
      LastIndexedSnoc(pieces[..i], pieces[i], decode);
      if !Blank(pieces[i]) {
        var decoded := decode(pieces[i]);
        if decoded.Some? {
          return decoded.value;
        }
      }
    }
    assert pieces[..i] == [];
  }

  // ----------------------------------------------------------- splitting a split

  /** Two splits glued where the texts meet. */
  function Glue(pa: seq<seq<Byte>>, pb: seq<seq<Byte>>): seq<seq<Byte>>
    requires pa != [] && pb != []
  {
    pa[..|pa| - 1] + [pa[|pa| - 1] + pb[0]] + pb[1..]
  }

  function Prepend(b: Byte, ps: seq<seq<Byte>>): seq<seq<Byte>>
    requires ps != []
  {
    [[b] + ps[0]] + ps[1..]
  }

  lemma PrependGlue(b: Byte, pa: seq<seq<Byte>>, pb: seq<seq<Byte>>)
    requires pa != [] && pb != []
    ensures Glue(Prepend(b, pa), pb) == Prepend(b, Glue(pa, pb))
  {
    if |pa| == 1 {
      assert [b] + pa[0] + pb[0] == [b] + (pa[0] + pb[0]);
    } else {
      assert Glue(pa, pb)[0] == pa[0];
    }
  }

  lemma EmptyGlue(pa: seq<seq<Byte>>, pb: seq<seq<Byte>>)
    requires pa != [] && pb != []
    ensures Glue([[]] + pa, pb) == [[]] + Glue(pa, pb)
  {
  }

  lemma {:induction false} PiecesOfConcat(a: seq<Byte>, b: seq<Byte>)
    ensures Pieces(a + b) == Glue(Pieces(a), Pieces(b))
  {
    if a == [] {
      assert a + b == b;
      assert [] + Pieces(b)[0] == Pieces(b)[0];
    } else {
      assert (a + b)[1..] == a[1..] + b;
      PiecesOfConcat(a[1..], b);
      if a[0] == NEWLINE {
        EmptyGlue(Pieces(a[1..]), Pieces(b));
      } else {
        PrependGlue(a[0], Pieces(a[1..]), Pieces(b));
      }
    }
  }

  lemma {:induction false} PiecesCount(text: seq<Byte>)
    ensures |Pieces(text)| == CountNewlines(text) + 1
  {
    if text != [] {
      PiecesCount(text[1..]);
    }
  }

  lemma {:induction false} SuffixDecides(front: seq<seq<Byte>>, back: seq<seq<Byte>>, decode: Decoder)
    requires SomeIndexed(back, decode)
    ensures LastIndexed(front + back, decode) == LastIndexed(back, decode)
  {
    var all := front + back;
    assert all[|all| - 1] == back[|back| - 1];
    if !Indexed(back[|back| - 1], decode) {
      assert all[..|all| - 1] == front + back[..|back| - 1];
      assert SomeIndexed(back[..|back| - 1], decode) by {
        var i :| 0 <= i < |back| && Indexed(back[i], decode);
        assert back[..|back| - 1][i] == back[i];
      }
      SuffixDecides(front, back[..|back| - 1], decode);
    }
  }

  /** Whatever the chunk boundary, a buffer with two newlines ends in the same two pieces as the file. */
  lemma TailAgrees(file: seq<Byte>, pos: nat, decode: Decoder)
    requires pos <= |file| && TailDecides(file, decode)
    requires pos == 0 || CountNewlines(file[pos..]) >= 2
    ensures LastIndexed(Pieces(file[pos..]), decode) == PlainLastIndex(file, decode)
  {
    if pos == 0 {
      assert file[0..] == file;
    } else {
      var buf := file[pos..];
      var ps, pb := Pieces(file), Pieces(buf);
      assert file == file[..pos] + buf;
      PiecesOfConcat(file[..pos], buf);
      PiecesCount(buf);
      var tail := ps[|ps| - 2..];
      assert tail == pb[|pb| - 2..];
      assert ps == ps[..|ps| - 2] + tail && pb == pb[..|pb| - 2] + tail;
      SuffixDecides(ps[..|ps| - 2], tail, decode);
      SuffixDecides(pb[..|pb| - 2], tail, decode);
    }
  }

  // -------------------------------------------------------------- well-formed logs

  predicate GoodLine(line: seq<Byte>, decode: Decoder) {
    NEWLINE !in line && Indexed(line, decode)
  }

  predicate GoodLines(lines: seq<seq<Byte>>, decode: Decoder) {
    forall line :: line in lines ==> GoodLine(line, decode)
  }

  function LastLineIndex(lines: seq<seq<Byte>>, decode: Decoder): int
    requires GoodLines(lines, decode)
  {
    if lines == [] then 0
    else
      assert lines[|lines| - 1] in lines;
      decode(lines[|lines| - 1]).value
  }

  /** The lines of a log, each terminated by a newline. */
  function LogText(lines: seq<seq<Byte>>): seq<Byte> {
    if lines == [] then [] else LogText(lines[..|lines| - 1]) + lines[|lines| - 1] + [NEWLINE]
  }

  lemma {:induction false} PiecesOfLine(line: seq<Byte>)
    requires NEWLINE !in line
    ensures Pieces(line + [NEWLINE]) == [line, []]
  {
    if line == [] {
      assert line + [NEWLINE] == [NEWLINE];
      assert Pieces([NEWLINE][1..]) == [[]];
    } else {
      assert (line + [NEWLINE])[1..] == line[1..] + [NEWLINE];
      PiecesOfLine(line[1..]);
      assert [line[0]] + line[1..] == line;
    }
  }

  lemma AppendedLine(text: seq<Byte>, front: seq<seq<Byte>>, last: seq<Byte>)
    requires Pieces(text) == front + [[]] && NEWLINE !in last
    ensures Pieces(text + last + [NEWLINE]) == front + [last] + [[]]
  {
    PiecesOfLine(last);
    PiecesOfConcat(text, last + [NEWLINE]);
    assert text + last + [NEWLINE] == text + (last + [NEWLINE]);
    GlueLine(front, last);
  }

  lemma {:induction false} PiecesOfLog(lines: seq<seq<Byte>>)
    requires forall line :: line in lines ==> NEWLINE !in line
    ensures Pieces(LogText(lines)) == lines + [[]]
  {
    if lines == [] {
      assert LogText(lines) == [];
    } else {
      var front, last := lines[..|lines| - 1], lines[|lines| - 1];
      PiecesOfLog(front);
      AppendedLine(LogText(front), front, last);
      assert front + [last] == lines;
    }
  }

  lemma GlueLine(front: seq<seq<Byte>>, last: seq<Byte>)
    ensures Glue(front + [[]], [last, []]) == front + [last] + [[]]
  {
    assert [] + last == last;
  }

  /** On every log of decodable, newline-terminated lines the tail decides, and the plain reader returns the index of
      the last line, so the chunked reader does too, for every length and chunk alignment. */
  lemma GoodLogTail(lines: seq<seq<Byte>>, decode: Decoder)
    requires GoodLines(lines, decode)
    ensures TailDecides(LogText(lines), decode)
    ensures PlainLastIndex(LogText(lines), decode) == LastLineIndex(lines, decode)
  {
    PiecesOfLog(lines);
    assert Blank([]);
    LastPieceDecides(lines, [], decode);
  }

  lemma LastPieceDecides(lines: seq<seq<Byte>>, tail: seq<Byte>, decode: Decoder)
    requires GoodLines(lines, decode) && !Indexed(tail, decode)
    ensures LastIndexed(lines + [tail], decode) == LastLineIndex(lines, decode)
    ensures var ps := lines + [tail]; |ps| <= 2 || SomeIndexed(ps[|ps| - 2..], decode)
  {
    LastIndexedSnoc(lines, tail, decode);
    if lines != [] {
      var front, last := lines[..|lines| - 1], lines[|lines| - 1];
      assert last in lines && lines == front + [last];
      LastIndexedSnoc(front, last, decode);
      var ps := lines + [tail];
      assert ps[|ps| - 2..][0] == last;
    }
  }

  /** A torn last write is read past: the line before it still decides, as long as the fragment does not decode. */
  lemma TornTailIsSkipped(lines: seq<seq<Byte>>, fragment: seq<Byte>, decode: Decoder)
    requires lines != [] && GoodLines(lines, decode)
    requires NEWLINE !in fragment && !Indexed(fragment, decode)
    ensures TailDecides(LogText(lines) + fragment, decode)
    ensures PlainLastIndex(LogText(lines) + fragment, decode) == LastLineIndex(lines, decode)
  {
    PiecesOfLog(lines);
    PiecesOfFragment(fragment);
    PiecesOfConcat(LogText(lines), fragment);
    assert [] + fragment == fragment;
    assert Pieces(LogText(lines) + fragment) == lines + [fragment];
    LastPieceDecides(lines, fragment, decode);
  }

  lemma {:induction false} PiecesOfFragment(fragment: seq<Byte>)
    requires NEWLINE !in fragment
    ensures Pieces(fragment) == [fragment]
  {
    if fragment != [] {
      PiecesOfFragment(fragment[1..]);
      assert [fragment[0]] + fragment[1..] == fragment;
    }
  }
}
