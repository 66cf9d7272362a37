/** What a merge leaves in a codebase document, told from the documents before it and the detected content. */
module MergeOutcomes {
  import opened Prelude
  import opened TextLines
  import opened Recon
  import opened ReconReading

  function Before(template: string, existing: Option<string>): string {
    if existing.Some? then existing.value else template
  }

  const STAMPED_KEYS: set<string> := {"updated_at", "generated_by", "schema_version", "status"}

  lemma {:induction false} SetThenGet(fm: Front, key: string, value: string, other: string)
    ensures Get(Set(fm, key, value), other) == if other == key then Some(value) else Get(fm, other)
  {
    if fm != [] && fm[0].0 != key {
      SetThenGet(fm[1..], key, value, other);
    }
  }

  /** Stamping sets four keys, and of those keeps a schema version that is there. */
  lemma StampSets(fm: Front, today: string, author: string, key: string)
    ensures Get(Stamp(fm, today, author), key) ==
            if key == "updated_at" then Some(today)
            else if key == "generated_by" then Some(author)
            else if key == "status" then Some("current")
            else if key == "schema_version" && (Get(fm, key).None? || Get(fm, key) == Some("")) then Some("1")
            else Get(fm, key)
  {
    KeysDiffer();
    hide Set, Get;
    var first := Set(fm, "updated_at", today);
    var dated := Set(first, "generated_by", author);
    SetThenGet(fm, "updated_at", today, key);
    SetThenGet(fm, "updated_at", today, "schema_version");
    SetThenGet(first, "generated_by", author, key);
    SetThenGet(first, "generated_by", author, "schema_version");
    SetThenGet(dated, "schema_version", "1", key);
    var version := Get(dated, "schema_version");
    var versioned := if version.None? || version.value == "" then Set(dated, "schema_version", "1") else dated;
    SetThenGet(versioned, "status", "current", key);
  }

  lemma {:induction false} CollectSnoc(lines: seq<string>, line: string, fm: Front)
    ensures Collect(lines + [line], fm) ==
            var kv := KeyValue(line);
            if kv.Some? then Set(Collect(lines, fm), kv.value.0, kv.value.1) else Collect(lines, fm)
  {
    hide KeyValue, Set;
    if lines == [] {
      assert lines + [line] == [line] && [line][1..] == [];
    } else {
      assert (lines + [line])[1..] == lines[1..] + [line];
      var kv := KeyValue(lines[0]);
      CollectSnoc(lines[1..], line, if kv.Some? then Set(fm, kv.value.0, kv.value.1) else fm);
    }
  }

  /** Of several lines for one key the last counts, and a line without a colon counts for nothing. */
  lemma LastLineCounts(lines: seq<string>, line: string, fm: Front, key: string)
    ensures Get(Collect(lines + [line], fm), key) ==
            if KeyValue(line).Some? && KeyValue(line).value.0 == key then Some(KeyValue(line).value.1)
            else Get(Collect(lines, fm), key)
  {
    CollectSnoc(lines, line, fm);
    if KeyValue(line).Some? {
      SetThenGet(Collect(lines, fm), KeyValue(line).value.0, KeyValue(line).value.1, key);
    }
    hide KeyValue, Set, Get, Collect;
  }

  /** Read back, a merged document has the front matter it had, stamped, and the merged text. */
  lemma MergeReadsBack(template: string, existing: Option<string>, auto: map<string, string>, autoOnly: string,
                       overwrite: bool, today: string, author: string)
    requires GoodValue(today) && GoodValue(author)
    ensures
      var (fm, body) := ParseFront(Before(template, existing));
      ParseFront(MergeFile(template, existing, auto, autoOnly, overwrite, today, author))
      == (Stamp(fm, today, author), MergedText(template, body, auto, autoOnly, overwrite))
  {
    var (fm, body) := ParseFront(Before(template, existing));
    ParsedFrontIsGood(Before(template, existing));
    hide ParseFront, RenderFront, Stamp, GoodFront, GoodValue, MergedText;
    StampIsGood(fm, today, author);
    FrontReadsBack(Stamp(fm, today, author), MergedText(template, body, auto, autoOnly, overwrite));
  }

  /** No merge loses a key of the front matter, and all but the stamped ones keep their values. */
  lemma MergeKeepsFront(template: string, existing: Option<string>, auto: map<string, string>, autoOnly: string,
                        overwrite: bool, today: string, author: string, key: string)
    requires GoodValue(today) && GoodValue(author)
    ensures
      var before := Get(ParseFront(Before(template, existing)).0, key);
      var after := Get(ParseFront(MergeFile(template, existing, auto, autoOnly, overwrite, today, author)).0, key);
      && (key !in STAMPED_KEYS ==> after == before)
      && (key == "updated_at" ==> after == Some(today)) && (key == "generated_by" ==> after == Some(author))
      && (key == "status" ==> after == Some("current"))
      && (key == "schema_version" ==> after == if before in {None, Some("")} then Some("1") else before)
  {
    MergeReadsBack(template, existing, auto, autoOnly, overwrite, today, author);
    StampSets(ParseFront(Before(template, existing)).0, today, author, key);
    KeysDiffer();
    hide ParseFront, MergeFile, MergedText, Stamp, Get;
  }

  lemma {:induction false} StripsOnlyNewlines(text: string) returns (k: nat)
    ensures k <= |text| && StripNewlines(text) == text[k..] && forall i :: 0 <= i < k ==> text[i] == '\n'
  {
    if text != "" && text[0] == '\n' {
      k := StripsOnlyNewlines(text[1..]);
      k := k + 1;
      assert text[1..][k - 1..] == text[k..];
    } else {
      k := 0;
    }
  }

  /** A file that an agent keeps has its text back, but for newlines at the start, and ends with a newline. Nothing of the
      template or the detected content is in it. */
  lemma AgentFileKeepsItsText(template: string, existing: Option<string>, auto: map<string, string>, autoOnly: string,
                              today: string, author: string)
    requires GoodValue(today) && GoodValue(author)
    ensures
      var body := ParseFront(Before(template, existing)).1;
      var after := ParseFront(MergeFile(template, existing, auto, autoOnly, false, today, author)).1;
      && (after != "" ==> after[|after| - 1] == '\n')
      && exists k :: 0 <= k <= |body| && (forall i :: 0 <= i < k ==> body[i] == '\n')
           && (after == body[k..] || after == body[k..] + "\n")
  {
    MergeReadsBack(template, existing, auto, autoOnly, false, today, author);
    var body := ParseFront(Before(template, existing)).1;
    var k := StripsOnlyNewlines(body);
    hide ParseFront, MergeFile, StripNewlines;
  }

  /** A generated document has the template's sections in the template's order: each with the content detected for it,
      stripped; or else with the text it had; or else a placeholder. */
  lemma GeneratedFileShowsDetected(template: string, existing: string, auto: map<string, string>, autoOnly: string)
    requires Sections(template, true) != [] && Mergeable(Sections(template, true), auto, Sections(existing, true))
    ensures
      var shipped, merged := Sections(template, true), Sections(MergedBody(template, existing, auto, autoOnly), true);
      && |merged| == |shipped|
      && forall i :: 0 <= i < |shipped| ==>
           && merged[i].key == shipped[i].key && merged[i].title == shipped[i].title
           && merged[i].body == if shipped[i].key in auto then Body(auto[shipped[i].key])
                                else if Lookup(Sections(existing, true), shipped[i].key).Some?
                                then Lookup(Sections(existing, true), shipped[i].key).value
                                else TODO
  {
    MergedSectionsExactly(template, existing, auto, autoOnly);
    var shipped, merged := Sections(template, true), Sections(MergedBody(template, existing, auto, autoOnly), true);
    hide Sections, MergedBody, Body, Lookup, Mergeable, NoHead;
    forall i | 0 <= i < |shipped|
      ensures merged[i] == shipped[i].(body := Body(BodyFor(shipped[i].key, auto, Sections(existing, true))))
      ensures shipped[i].key !in auto ==>
                var body := BodyFor(shipped[i].key, auto, Sections(existing, true));
                Body(body) == body
    {
      if shipped[i].key !in auto {
        ChosenBody(shipped[i].key, auto, existing);
      }
    }
  }

  /** What the template has before its first heading is kept at the top, followed by an empty line. */
  lemma PreambleIsKept(pre: string, key: string, rest: string, existing: string, auto: map<string, string>, autoOnly: string)
    requires
      var template := pre + (OPEN + key + "]" + rest);
      && Sections(template, true) != [] && Sections(template, true)[0].key == key
      && Find(template, OPEN + key + "]") == Some(|pre|)
    requires TrimRight(pre) != ""
    ensures TrimRight(pre) + "\n\n" <= MergedBody(pre + (OPEN + key + "]" + rest), existing, auto, autoOnly)
  {
    var template := pre + (OPEN + key + "]" + rest);
    var filled := Filled(Sections(template, true), auto, Sections(existing, true));
    assert template[..|pre|] == pre;
    TrimRightIsPrefix(pre);
    PartsNotEmpty(filled);
    hide Sections, Find, TrimRight, Filled, Parts;
    JoinCons(TrimRight(pre), Parts(filled));
  }
}
