/** The audit rows as JSON lines: what each form keeps, how long it is, and which drafts lose their transaction fields. */
module AuditJson {
  import opened Prelude
  import opened TextLines
  import opened Decimals
  import opened AuditTail
  import opened AuditLog
  import opened PhaseTxn

  // ------------------------------------------------------------------------ strings

  function Hex(d: nat): char
    requires d < 16
  {
    if d < 10 then ('0' as int + d) as char else ('a' as int + (d - 10)) as char
  }

  /** A code unit as `\\uXXXX`. */
  function Unicode(unit: nat): string
    requires unit < 0x1_0000
  {
    "\\u" + [Hex(unit / 4096), Hex(unit / 256 % 16), Hex(unit / 16 % 16), Hex(unit % 16)]
  }

  function EscapeChar(c: char): string {
    if c == '"' || c == '\\' then ['\\', c]
    else if ' ' <= c <= '~' then [c]
    else if c == '\n' then "\\n"
    else if c == '\r' then "\\r"
    else if c == '\t' then "\\t"
    else if c == '\U{08}' then "\\b"
    else if c == '\U{0C}' then "\\f"
    else if c as int < 0x1_0000 then Unicode(c as int)
    else
      var rest := c as int - 0x1_0000;
      Unicode(0xD800 + rest / 0x400 % 0x400) + Unicode(0xDC00 + rest % 0x400)
  }

  function Escape(text: string): string {
    if text == "" then "" else EscapeChar(text[0]) + Escape(text[1..])
  }

  function Quote(text: string): string {
    "\"" + Escape(text) + "\""
  }

  function ValueText(value: Value): string {
    match value
    case Null => "null"
    case Bool(b) => if b then "true" else "false"
    case Str(s) => Quote(s)
  }

  // --------------------------------------------------------------------------- rows

  /** How hashes and transaction ids are spelled. */
  datatype Names = Names(digest: Hash -> string, txn: nat -> string)

  function Member(key: string, value: string): string {
    ",\"" + key + "\":" + value
  }

  function OptionalMember(key: string, value: Option<string>): string {
    if value.Some? then Member(key, Quote(value.value)) else ""
  }

  function Members(pairs: seq<(string, Value)>): string {
    if pairs == [] then "" else "," + Quote(pairs[0].0) + ":" + ValueText(pairs[0].1) + Members(pairs[1..])
  }

  function Object(pairs: seq<(string, Value)>): string {
    if pairs == [] then "{}"
    else "{" + Quote(pairs[0].0) + ":" + ValueText(pairs[0].1) + Members(pairs[1..]) + "}"
  }

  const DROPPED := "{\"truncated\":true}"

  /** What every form keeps. */
  function Identity(d: Draft): string {
    Member("at", Quote(d.at)) + OptionalMember("by", d.author) + OptionalMember("by_source", d.authorSource)
    + OptionalMember("confirmation_kind", d.confirmation) + Member("schema_version", "1") + Member("verb", Quote(d.verb))
  }

  function TxnMembers(names: Names, txn: Option<TxnStamp>): string {
    if txn.None? then ""
    else
      Member("after_sha256", Quote(names.digest(txn.value.after)))
      + Member("before_sha256", Quote(names.digest(txn.value.before)))
      + Member("txn_id", Quote(names.txn(txn.value.txnId)))
  }

  function Rest(names: Names, r: Row): string {
    match r
    case Full(e, _) =>
      Identity(e.draft) + Member("args", Object(e.draft.args)) + Members(e.draft.extra) + TxnMembers(names, e.txn)
    case Truncated(e, _) =>
      Identity(e.draft) + Member("args", DROPPED) + Members(e.draft.extra) + TxnMembers(names, e.txn)
    case Minimal(e, _) =>
      Identity(e.draft) + Member("args", DROPPED)
  }

  const OPENING := "{\"index\":"

  /** One row. The keys are in an order of this model's own; sorting them would change neither length nor meaning. */
  function Line(names: Names, r: Row): string {
    OPENING + Dec(r.index) + Rest(names, r) + "}"
  }

  function Ascii(text: string): seq<Byte> {
    seq(|text|, i requires 0 <= i < |text| => if text[i] as int < 256 then text[i] as int else 63)
  }

  function Text(line: seq<Byte>): string {
    seq(|line|, i requires 0 <= i < |line| => line[i] as char)
  }

  function ReadIndex(line: seq<Byte>): Option<int> {
    var text := Text(line);
    if !(OPENING <= text) then None
    else
      var rest := text[|OPENING|..];
      var n := Digits(rest);
      if n == 0 then None else Some(NumberOf(rest[..n]))
  }

  function JsonCodec(names: Names): Codec {
    Codec(r => Ascii(Line(names, r)), ReadIndex)
  }

  // --------------------------------------------------------------------- one clean line

  lemma PrintableJoin(a: string, b: string)
    requires Printable(a) && Printable(b)
    ensures Printable(a + b)
  {
  }

  lemma UnicodeIsPrintable(unit: nat)
    requires unit < 0x1_0000
    ensures Printable(Unicode(unit))
  {
  }

  lemma EscapedCharIsPrintable(c: char)
    ensures Printable(EscapeChar(c))
  {
    if !(' ' <= c <= '~') && c as int >= 0x1_0000 {
      var rest := c as int - 0x1_0000;
      UnicodeIsPrintable(0xD800 + rest / 0x400 % 0x400);
      UnicodeIsPrintable(0xDC00 + rest % 0x400);
    } else if !(' ' <= c <= '~') {
      UnicodeIsPrintable(c as int);
    }
  }

  lemma {:induction false} EscapedIsPrintable(text: string)
    ensures Printable(Escape(text))
  {
    if text != "" {
      EscapedCharIsPrintable(text[0]);
      EscapedIsPrintable(text[1..]);
      hide EscapeChar;
    }
  }

  lemma QuotedIsPrintable(text: string)
    ensures Printable(Quote(text))
  {
    EscapedIsPrintable(text);
    hide Escape;
  }

  lemma ValueIsPrintable(value: Value)
    ensures Printable(ValueText(value))
  {
    if value.Str? {
      QuotedIsPrintable(value.s);
    }
  }

  lemma MemberIsPrintable(key: string, value: string)
    requires Printable(key) && Printable(value)
    ensures Printable(Member(key, value))
  {
  }

  lemma {:induction false} MembersArePrintable(pairs: seq<(string, Value)>)
    ensures Printable(Members(pairs))
  {
    if pairs != [] {
      QuotedIsPrintable(pairs[0].0);
      ValueIsPrintable(pairs[0].1);
      MembersArePrintable(pairs[1..]);
      hide Quote, ValueText;
    }
  }

  lemma ObjectIsPrintable(pairs: seq<(string, Value)>)
    ensures Printable(Object(pairs))
  {
    if pairs != [] {
      QuotedIsPrintable(pairs[0].0);
      ValueIsPrintable(pairs[0].1);
      MembersArePrintable(pairs[1..]);
      hide Quote, ValueText, Members;
    }
  }

  lemma OptionalIsPrintable(key: string, value: Option<string>)
    requires Printable(key)
    ensures Printable(OptionalMember(key, value))
  {
    if value.Some? {
      QuotedIsPrintable(value.value);
      hide Quote;
      MemberIsPrintable(key, Quote(value.value));
    }
  }

  lemma KeysArePrintable()
    ensures Printable("at") && Printable("by") && Printable("by_source") && Printable("confirmation_kind")
    ensures Printable("schema_version") && Printable("1") && Printable("verb") && Printable("args") && Printable(DROPPED)
    ensures Printable("after_sha256") && Printable("before_sha256") && Printable("txn_id") && Printable("}")
    ensures Printable(OPENING)
  {
  }

  lemma IdentityIsPrintable(d: Draft)
    ensures Printable(Identity(d))
  {
    KeysArePrintable();
    QuotedIsPrintable(d.at);
    QuotedIsPrintable(d.verb);
    OptionalIsPrintable("by", d.author);
    OptionalIsPrintable("by_source", d.authorSource);
    OptionalIsPrintable("confirmation_kind", d.confirmation);
    MemberIsPrintable("at", Quote(d.at));
    MemberIsPrintable("schema_version", "1");
    MemberIsPrintable("verb", Quote(d.verb));
    hide Printable, Member, OptionalMember, Quote;
    var a := Member("at", Quote(d.at)) + OptionalMember("by", d.author);
    PrintableJoin(Member("at", Quote(d.at)), OptionalMember("by", d.author));
    PrintableJoin(a, OptionalMember("by_source", d.authorSource));
    var b := a + OptionalMember("by_source", d.authorSource) + OptionalMember("confirmation_kind", d.confirmation);
    PrintableJoin(a + OptionalMember("by_source", d.authorSource), OptionalMember("confirmation_kind", d.confirmation));
    PrintableJoin(b, Member("schema_version", "1"));
    PrintableJoin(b + Member("schema_version", "1"), Member("verb", Quote(d.verb)));
  }

  lemma TxnIsPrintable(names: Names, txn: Option<TxnStamp>)
    ensures Printable(TxnMembers(names, txn))
  {
    if txn.Some? {
      KeysArePrintable();
      var x, y, z := Quote(names.digest(txn.value.after)), Quote(names.digest(txn.value.before)),
                     Quote(names.txn(txn.value.txnId));
      QuotedIsPrintable(names.digest(txn.value.after));
      QuotedIsPrintable(names.digest(txn.value.before));
      QuotedIsPrintable(names.txn(txn.value.txnId));
      MemberIsPrintable("after_sha256", x);
      MemberIsPrintable("before_sha256", y);
      MemberIsPrintable("txn_id", z);
      hide Printable, Member, Quote;
      PrintableJoin(Member("after_sha256", x), Member("before_sha256", y));
      PrintableJoin(Member("after_sha256", x) + Member("before_sha256", y), Member("txn_id", z));
    }
  }

  lemma RestIsPrintable(names: Names, r: Row)
    ensures Printable(Rest(names, r)) && Rest(names, r) != "" && Rest(names, r)[0] == ','
  {
    var d := r.entry.draft;
    KeysArePrintable();
    IdentityIsPrintable(d);
    TxnIsPrintable(names, r.entry.txn);
    MembersArePrintable(d.extra);
    ObjectIsPrintable(d.args);
    MemberIsPrintable("args", DROPPED);
    MemberIsPrintable("args", Object(d.args));
    assert Identity(d) != "" && Identity(d)[0] == ',' by {
      hide Quote, OptionalMember;
    }
    hide Printable, Member, Members, Object, Identity, TxnMembers;
    var args := Member("args", if r.Full? then Object(d.args) else DROPPED);
    PrintableJoin(Identity(d), args);
    PrintableJoin(Identity(d) + args, Members(d.extra));
    PrintableJoin(Identity(d) + args + Members(d.extra), TxnMembers(names, r.entry.txn));
  }

  lemma DigitsArePrintable(text: string)
    requires forall c :: c in text ==> IsDigit(c)
    ensures Printable(text)
  {
    assert forall i :: 0 <= i < |text| ==> text[i] in text;
  }

  lemma LineIsPrintable(names: Names, r: Row)
    ensures Printable(Line(names, r))
  {
    KeysArePrintable();
    DecReadsBack(r.index);
    DigitsArePrintable(Dec(r.index));
    RestIsPrintable(names, r);
    hide Printable, Rest, Dec;
    PrintableJoin(OPENING, Dec(r.index));
    PrintableJoin(OPENING + Dec(r.index), Rest(names, r));
    PrintableJoin(OPENING + Dec(r.index) + Rest(names, r), "}");
  }

  lemma AsciiReadsBack(text: string)
    requires Printable(text)
    ensures Text(Ascii(text)) == text && NEWLINE !in Ascii(text)
  {
  }

  /** A rendered row is one line, and the index read from it is its own. */
  lemma JsonIsFaithful(names: Names)
    ensures Faithful(JsonCodec(names))
  {
    forall r: Row
      ensures GoodLine(JsonCodec(names).encode(r), ReadIndex) && ReadIndex(JsonCodec(names).encode(r)) == Some(r.index)
    {
      LineIsPrintable(names, r);
      AsciiReadsBack(Line(names, r));
      IndexReadsBack(names, r);
      NotBlank(Line(names, r));
    }
  }

  lemma NotBlank(text: string)
    requires text != "" && text[0] == '{' && Printable(text)
    ensures !Blank(Ascii(text))
  {
    assert Ascii(text)[0] == 123;
  }

  lemma IndexReadsBack(names: Names, r: Row)
    requires Text(Ascii(Line(names, r))) == Line(names, r)
    ensures ReadIndex(Ascii(Line(names, r))) == Some(r.index)
    ensures Line(names, r) != "" && Line(names, r)[0] == '{'
  {
    var tail := Rest(names, r) + "}";
    DecReadsBack(r.index);
    RestIsPrintable(names, r);
    hide Rest, Dec, NumberOf, Ascii, Text;
    LinePieces(Dec(r.index), Rest(names, r));
    DigitsOf(Dec(r.index), tail);
  }

  lemma LinePieces(digits: string, rest: string)
    ensures
      var line := OPENING + digits + rest + "}";
      && OPENING <= line && line[0] == '{' && line[|OPENING|..] == digits + (rest + "}")
      && (digits + (rest + "}"))[..|digits|] == digits
  {
  }

  // -------------------------------------------------------------------------- lengths

  /** Text that JSON writes as it is. */
  predicate Unescaped(text: string) {
    forall i :: 0 <= i < |text| ==> ' ' <= text[i] <= '~' && text[i] != '"' && text[i] != '\\'
  }

  lemma {:induction false} UnescapedLength(text: string)
    requires Unescaped(text)
    ensures Escape(text) == text
  {
    if text != "" {
      assert forall i :: 0 <= i < |text[1..]| ==> text[1..][i] == text[i + 1];
      UnescapedLength(text[1..]);
      assert text == [text[0]] + text[1..];
    }
  }

  lemma QuotedLength(text: string)
    requires Unescaped(text)
    ensures |Quote(text)| == |text| + 2
  {
    UnescapedLength(text);
  }

  /** Hashes are 64 and transaction ids 32 hex digits. */
  predicate HexNames(names: Names, txn: TxnStamp) {
    && Unescaped(names.digest(txn.after)) && |names.digest(txn.after)| == 64
    && Unescaped(names.digest(txn.before)) && |names.digest(txn.before)| == 64
    && Unescaped(names.txn(txn.txnId)) && |names.txn(txn.txnId)| == 32
  }

  lemma MemberLength(key: string, value: string)
    ensures |Member(key, value)| == |key| + |value| + 4
  {
  }

  lemma TxnLength(names: Names, txn: TxnStamp)
    requires HexNames(names, txn)
    ensures |TxnMembers(names, Some(txn))| == 209
  {
    QuotedLength(names.digest(txn.after));
    QuotedLength(names.digest(txn.before));
    QuotedLength(names.txn(txn.txnId));
    hide Quote, Member;
    MemberLength("after_sha256", Quote(names.digest(txn.after)));
    MemberLength("before_sha256", Quote(names.digest(txn.before)));
    MemberLength("txn_id", Quote(names.txn(txn.txnId)));
  }

  /** The draft `phase approve` logs with an explicit `--by`. */
  function ApproveDraft(author: string, at: string, tty: string): Draft {
    Draft("phase.approve", at, Some(author), Some("explicit_by_flag"), Some("soft_tty"),
          [("proof_class", Str("soft_tty")), ("tty", Str(tty)), ("response", Str("y"))], [("approved_at", Str(at))])
  }

  /** The draft `phase reopen` logs; its reason is among the arguments. */
  function ReopenDraft(author: string, at: string, from: string, to: string, reason: string): Draft {
    Draft("phase.reopen", at, Some(author), Some("explicit_by_flag"), Some("human_cli"),
          [("from_phase", Str(from)), ("to_phase", Str(to)), ("halted_autopilot_run_id", Null)],
          [("from_phase", Str(from)), ("to_phase", Str(to)), ("reason", Str(reason)),
           ("preserved_as_draft", Bool(true)), ("halted_autopilot_run_id", Null)])
  }

  lemma WordsAreUnescaped()
    ensures Unescaped("phase.approve") && Unescaped("explicit_by_flag") && Unescaped("soft_tty")
    ensures Unescaped("proof_class") && Unescaped("tty") && Unescaped("response") && Unescaped("y")
    ensures Unescaped("approved_at")
  {
  }

  lemma MoreWordsAreUnescaped()
    ensures Unescaped("phase.reopen") && Unescaped("human_cli") && Unescaped("from_phase") && Unescaped("to_phase")
    ensures Unescaped("halted_autopilot_run_id")
  {
  }

  /** The length of what every form keeps. */
  lemma IdentityLength(d: Draft)
    requires Unescaped(d.at) && Unescaped(d.verb) && d.author.Some? && d.authorSource.Some? && d.confirmation.Some?
    requires Unescaped(d.author.value) && Unescaped(d.authorSource.value) && Unescaped(d.confirmation.value)
    ensures |Identity(d)| == 83 + |d.at| + |d.author.value| + |d.authorSource.value| + |d.confirmation.value| + |d.verb|
  {
    QuotedLength(d.at);
    QuotedLength(d.author.value);
    QuotedLength(d.authorSource.value);
    QuotedLength(d.confirmation.value);
    QuotedLength(d.verb);
    hide Quote, Member, Unescaped;
    MemberLength("at", Quote(d.at));
    MemberLength("by", Quote(d.author.value));
    MemberLength("by_source", Quote(d.authorSource.value));
    MemberLength("confirmation_kind", Quote(d.confirmation.value));
    MemberLength("schema_version", "1");
    MemberLength("verb", Quote(d.verb));
  }

  lemma MembersCons(key: string, value: Value, rest: seq<(string, Value)>)
    requires Unescaped(key)
    ensures |Members([(key, value)] + rest)| == |key| + 4 + |ValueText(value)| + |Members(rest)|
  {
    QuotedLength(key);
    hide Quote, ValueText;
    assert ([(key, value)] + rest)[1..] == rest;
  }

  lemma ThreeMembers(a: (string, Value), b: (string, Value), c: (string, Value))
    requires Unescaped(a.0) && Unescaped(b.0) && Unescaped(c.0)
    ensures |Members([a, b, c])|
         == |a.0| + |b.0| + |c.0| + 12 + |ValueText(a.1)| + |ValueText(b.1)| + |ValueText(c.1)|
  {
    hide ValueText, Unescaped, Members;
    MembersCons(a.0, a.1, [b, c]);
    MembersCons(b.0, b.1, [c]);
    MembersCons(c.0, c.1, []);
    assert [a, b, c] == [a] + [b, c] && [b, c] == [b] + [c] && [c] == [c] + [];
    NoMembers();
  }

  lemma NoMembers()
    ensures Members([]) == ""
  {
  }

  lemma LineLength(names: Names, r: Row)
    ensures |Line(names, r)| == 10 + |Dec(r.index)| + |Rest(names, r)|
    ensures |JsonCodec(names).encode(r)| == |Line(names, r)|
  {
    hide Rest, Dec;
    assert |OPENING| == 9;
  }

  lemma FullLength(names: Names, e: Entry, index: nat)
    ensures |Line(names, Full(e, index))| == 18 + |Dec(index)| + |Identity(e.draft)| + |Object(e.draft.args)|
                                             + |Members(e.draft.extra)| + |TxnMembers(names, e.txn)|
  {
    hide Dec, Identity, Object, Members, TxnMembers, Member;
    LineLength(names, Full(e, index));
    MemberLength("args", Object(e.draft.args));
  }

  lemma TruncatedLength(names: Names, e: Entry, index: nat)
    ensures |Line(names, Truncated(e, index))| == 36 + |Dec(index)| + |Identity(e.draft)| + |Members(e.draft.extra)|
                                                  + |TxnMembers(names, e.txn)|
  {
    hide Dec, Identity, Object, Members, TxnMembers, Member;
    LineLength(names, Truncated(e, index));
    MemberLength("args", DROPPED);
    assert |DROPPED| == 18;
  }

  lemma MinimalLength(names: Names, e: Entry, index: nat)
    ensures |Line(names, Minimal(e, index))| == 36 + |Dec(index)| + |Identity(e.draft)|
  {
    hide Dec, Identity, Object, Members, TxnMembers, Member;
    LineLength(names, Minimal(e, index));
    MemberLength("args", DROPPED);
    assert |DROPPED| == 18;
  }

  lemma ApproveIdentity(author: string, at: string, tty: string)
    requires Unescaped(author) && Unescaped(at)
    ensures |Identity(ApproveDraft(author, at, tty))| == 120 + |author| + |at|
  {
    WordsAreUnescaped();
    hide Unescaped, Identity;
    IdentityLength(ApproveDraft(author, at, tty));
  }

  lemma ApproveExtra(author: string, at: string, tty: string)
    requires Unescaped(tty)
    ensures |Members(ApproveDraft(author, at, tty).extra)| == 49 + |tty|
  {
    WordsAreUnescaped();
    QuotedLength("soft_tty");
    QuotedLength(tty);
    QuotedLength("y");
    hide Unescaped, Quote, Members;
    ThreeMembers(("proof_class", Str("soft_tty")), ("tty", Str(tty)), ("response", Str("y")));
  }

  lemma ApproveArgs(author: string, at: string, tty: string)
    requires Unescaped(at)
    ensures |Object(ApproveDraft(author, at, tty).args)| == 18 + |at|
  {
    WordsAreUnescaped();
    QuotedLength("approved_at");
    QuotedLength(at);
    NoMembers();
    hide Unescaped, Quote;
    assert ApproveDraft(author, at, tty).args[1..] == [];
  }

  lemma ApproveParts(author: string, at: string, tty: string)
    requires Unescaped(author) && Unescaped(at) && Unescaped(tty)
    ensures
      var d := ApproveDraft(author, at, tty);
      && |Identity(d)| == 120 + |author| + |at| && |Members(d.extra)| == 49 + |tty| && |Object(d.args)| == 18 + |at|
  {
    hide *;
    ApproveIdentity(author, at, tty);
    ApproveExtra(author, at, tty);
    ApproveArgs(author, at, tty);
  }

  lemma ReopenParts(author: string, at: string, from: string, to: string, reason: string)
    requires Unescaped(author) && Unescaped(at) && Unescaped(from) && Unescaped(to)
    ensures
      var d := ReopenDraft(author, at, from, to, reason);
      && |Identity(d)| == 120 + |author| + |at| && |Members(d.extra)| == 61 + |from| + |to|
  {
    var d := ReopenDraft(author, at, from, to, reason);
    WordsAreUnescaped();
    MoreWordsAreUnescaped();
    QuotedLength(from);
    QuotedLength(to);
    hide Unescaped, Quote, Identity, Members;
    IdentityLength(d);
    ThreeMembers(("from_phase", Str(from)), ("to_phase", Str(to)), ("halted_autopilot_run_id", Null));
  }

  /** How long an approval's row is in each form. */
  lemma ApproveLengths(names: Names, author: string, at: string, tty: string, txn: TxnStamp, index: nat)
    requires Unescaped(author) && Unescaped(at) && Unescaped(tty) && HexNames(names, txn)
    ensures
      var e := Entry(ApproveDraft(author, at, tty), Some(txn));
      && |Line(names, Full(e, index))| == 414 + |author| + 2 * |at| + |tty| + |Dec(index)|
      && |Line(names, Truncated(e, index))| == 414 + |author| + |at| + |tty| + |Dec(index)|
      && |Line(names, Minimal(e, index))| == 156 + |author| + |at| + |Dec(index)|
  {
    var e := Entry(ApproveDraft(author, at, tty), Some(txn));
    ApproveParts(author, at, tty);
    TxnLength(names, txn);
    hide *;
    hide Line, Dec, Identity, Object, Members, TxnMembers, ApproveDraft, Unescaped, HexNames;
    assert e.draft == ApproveDraft(author, at, tty) && e.txn == Some(txn);
    FullLength(names, e, index);
    TruncatedLength(names, e, index);
    MinimalLength(names, e, index);
  }

  lemma OneEntry(d: Draft, txn: TxnStamp)
    ensures Stamped([d], txn) == [Entry(d, Some(txn))]
  {
  }

  lemma OneFallback(c: Codec, e: Entry, count: nat)
    ensures NoMinimalFallback(c, [e], count) <==>
              Fits(c, Full(e, IndexOf(count, 0))) || Fits(c, Truncated(e, IndexOf(count, 0)))
    ensures NoneTooLong(c, [e], count) <==> !TooLong(c, e, IndexOf(count, 0))
  {
    hide Fits, TooLong, IndexOf;
    assert [e][0] == e;
  }

  lemma FitsExactly(names: Names, r: Row)
    ensures Fits(JsonCodec(names), r) <==> |Line(names, r)| <= 1023
  {
    LineLength(names, r);
    hide Line;
  }

  /** An approval's row keeps its transaction fields exactly when its free fields come to at most 609 characters. */
  lemma ApproveKeepsItsStampExactly(names: Names, author: string, at: string, tty: string, txn: TxnStamp, count: nat)
    requires Unescaped(author) && Unescaped(at) && Unescaped(tty) && HexNames(names, txn)
    ensures NoMinimalFallback(JsonCodec(names), Stamped([ApproveDraft(author, at, tty)], txn), count)
       <==> |author| + |at| + |tty| + |Dec(IndexOf(count, 0))| <= 609
  {
    var index := IndexOf(count, 0);
    var e := Entry(ApproveDraft(author, at, tty), Some(txn));
    hide *;
    ApproveLengths(names, author, at, tty, txn, index);
    OneEntry(ApproveDraft(author, at, tty), txn);
    OneFallback(JsonCodec(names), e, count);
    FitsExactly(names, Full(e, index));
    FitsExactly(names, Truncated(e, index));
  }

  const LONG_NAME: string := seq(700, _ => 'a')
  const NOON := "2024-01-01T12:00:00Z"

  lemma LongNameIsUnescaped()
    ensures Unescaped(LONG_NAME) && |LONG_NAME| == 700 && Unescaped(NOON) && |NOON| == 20
    ensures Unescaped("/dev/tty") && |"/dev/tty"| == 8 && IndexOf(0, 0) == 1 && |Dec(1)| == 1
  {
  }

  /** So a name of 700 characters commits an approval whose row carries neither the transaction id nor a hash. */
  lemma LongNameLosesItsStamp(names: Names, txn: TxnStamp)
    requires HexNames(names, txn)
    ensures
      var c, drafts := JsonCodec(names), [ApproveDraft(LONG_NAME, NOON, "/dev/tty")];
      var (d, rows) := AppendAll(c, EMPTY_LOG, Stamped(drafts, txn));
      Faithful(c) && NoneTooLong(c, Stamped(drafts, txn), 0) && !Logged(d, rows, txn)
  {
    var c, draft := JsonCodec(names), ApproveDraft(LONG_NAME, NOON, "/dev/tty");
    var e := Entry(draft, Some(txn));
    assert |EMPTY_LOG.current| == 0;
    NotTooLong(c, e, 1);
    hide *;
    LongNameIsUnescaped();
    JsonIsFaithful(names);
    OneEntry(draft, txn);
    ApproveLengths(names, LONG_NAME, NOON, "/dev/tty", txn, 1);
    ApproveKeepsItsStampExactly(names, LONG_NAME, NOON, "/dev/tty", txn, 0);
    FitsExactly(names, Minimal(e, 1));
    OneFallback(c, e, 0);
    EmptyIsTidy(c);
    RetainsNothing();
    LoggedExactly(c, EMPTY_LOG, [], [draft], txn);
  }

  lemma NotTooLong(c: Codec, e: Entry, index: nat)
    ensures Fits(c, Minimal(e, index)) ==> !TooLong(c, e, index)
  {
  }

  lemma RetainsNothing()
    ensures Retains(EMPTY_LOG, [])
  {
    OlderIsEmpty(ROTATION_KEEP);
  }

  lemma SameRest(names: Names, d: Draft, txn: TxnStamp, index: nat, args: seq<(string, Value)>)
    ensures |Line(names, Truncated(Entry(d.(args := args), Some(txn)), index))|
         == |Line(names, Truncated(Entry(d, Some(txn)), index))|
  {
    assert Identity(d.(args := args)) == Identity(d);
    hide Dec, Identity, Members, TxnMembers;
    TruncatedLength(names, Entry(d, Some(txn)), index);
    TruncatedLength(names, Entry(d.(args := args), Some(txn)), index);
  }

  /** The length of a reason, or of any other argument, never costs a row its transaction fields. */
  lemma ArgumentsNeverCostTheStamp(names: Names, d: Draft, txn: TxnStamp, count: nat, args: seq<(string, Value)>)
    requires |Line(names, Truncated(Entry(d, Some(txn)), IndexOf(count, 0)))| <= 1023
    ensures NoMinimalFallback(JsonCodec(names), Stamped([d.(args := args)], txn), count)
  {
    hide *;
    var index, other := IndexOf(count, 0), Entry(d.(args := args), Some(txn));
    SameRest(names, d, txn, index, args);
    OneEntry(d.(args := args), txn);
    OneFallback(JsonCodec(names), other, count);
    FitsExactly(names, Truncated(other, index));
  }

  /** A reopening by a name of up to 300 characters is fully logged whatever its reason. */
  lemma ReopenKeepsItsStamp(names: Names, author: string, at: string, from: string, to: string, reason: string,
                            txn: TxnStamp, count: nat)
    requires Unescaped(author) && Unescaped(at) && Unescaped(from) && Unescaped(to) && HexNames(names, txn)
    requires |author| <= 300 && |at| <= 40 && |from| <= 10 && |to| <= 10 && |Dec(IndexOf(count, 0))| <= 5
    ensures NoMinimalFallback(JsonCodec(names), Stamped([ReopenDraft(author, at, from, to, reason)], txn), count)
  {
    var d := ReopenDraft(author, at, from, to, reason);
    var index := IndexOf(count, 0);
    hide *;
    ReopenParts(author, at, from, to, reason);
    TxnLength(names, txn);
    TruncatedLength(names, Entry(d, Some(txn)), index);
    ArgumentsNeverCostTheStamp(names, d, txn, count, d.args);
    assert d.(args := d.args) == d;
  }

  // ----------------------------------------------------------------- string boundaries

  /** How far it is to the end of a string, from just after its opening quote: the first quote that no backslash escapes. */
  function StringEnd(text: string): Option<nat> {
    if text == "" then None
    else if text[0] == '"' then Some(1)
    else
      var k := if text[0] == '\\' then 2 else 1;
      if k > |text| then None
      else
        var n := StringEnd(text[k..]);
        if n.Some? then Some(k + n.value) else None
  }

  predicate Ordinary(text: string) {
    forall i :: 0 <= i < |text| ==> text[i] != '"' && text[i] != '\\'
  }

  lemma {:induction false} OrdinaryIsPassed(text: string, rest: string)
    requires Ordinary(text) && StringEnd(rest).Some?
    ensures StringEnd(text + rest) == Some(|text| + StringEnd(rest).value)
  {
    if text == "" {
      assert text + rest == rest;
    } else {
      assert (text + rest)[1..] == text[1..] + rest;
      OrdinaryIsPassed(text[1..], rest);
    }
  }

  lemma PairIsPassed(c: char, rest: string)
    requires StringEnd(rest).Some?
    ensures StringEnd(['\\', c] + rest) == Some(2 + StringEnd(rest).value)
  {
    assert (['\\', c] + rest)[2..] == rest;
  }

  lemma UnicodeIsPassed(unit: nat, rest: string)
    requires unit < 0x1_0000 && StringEnd(rest).Some?
    ensures StringEnd(Unicode(unit) + rest) == Some(6 + StringEnd(rest).value)
  {
    var digits := [Hex(unit / 4096), Hex(unit / 256 % 16), Hex(unit / 16 % 16), Hex(unit % 16)];
    assert Unicode(unit) + rest == ['\\', 'u'] + (digits + rest);
    OrdinaryIsPassed(digits, rest);
    PairIsPassed('u', digits + rest);
  }

  lemma CharIsPassed(c: char, rest: string)
    requires StringEnd(rest).Some?
    ensures StringEnd(EscapeChar(c) + rest) == Some(|EscapeChar(c)| + StringEnd(rest).value)
  {
    hide StringEnd, Unicode;
    var shown := EscapeChar(c);
    if ' ' <= c <= '~' && c != '"' && c != '\\' {
      OrdinaryIsPassed(shown, rest);
    } else if c in {'"', '\\', '\n', '\r', '\t', '\U{08}', '\U{0C}'} {
      assert shown == ['\\', shown[1]];
      PairIsPassed(shown[1], rest);
    } else if c as int < 0x1_0000 {
      assert |Unicode(c as int)| == 6 by { UnicodeLength(c as int); }
      UnicodeIsPassed(c as int, rest);
    } else {
      var low := 0xDC00 + (c as int - 0x1_0000) % 0x400;
      var high := 0xD800 + (c as int - 0x1_0000) / 0x400 % 0x400;
      UnicodeLength(low);
      UnicodeLength(high);
      UnicodeIsPassed(low, rest);
      UnicodeIsPassed(high, Unicode(low) + rest);
      assert shown + rest == Unicode(high) + (Unicode(low) + rest);
    }
  }

  lemma UnicodeLength(unit: nat)
    requires unit < 0x1_0000
    ensures |Unicode(unit)| == 6
  {
  }

  /** A written string ends where it was ended, whatever is in it. */
  lemma {:induction false} QuotedEndsAtItsQuote(text: string, rest: string)
    ensures StringEnd(Escape(text) + ("\"" + rest)) == Some(|Escape(text)| + 1)
    ensures Quote(text) == "\"" + Escape(text) + "\""
  {
    if text == "" {
      NothingEscaped(rest);
    } else {
      QuotedEndsAtItsQuote(text[1..], rest);
      EscapedCons(text, "\"" + rest);
      hide EscapeChar, StringEnd, Escape, Quote;
      CharIsPassed(text[0], Escape(text[1..]) + ("\"" + rest));
    }
  }

  lemma NothingEscaped(rest: string)
    ensures StringEnd(Escape("") + ("\"" + rest)) == Some(1) && |Escape("")| == 0
  {
    assert Escape("") + ("\"" + rest) == "\"" + rest;
  }

  lemma EscapedCons(text: string, rest: string)
    requires text != ""
    ensures Escape(text) + rest == EscapeChar(text[0]) + (Escape(text[1..]) + rest)
    ensures |Escape(text)| == |EscapeChar(text[0])| + |Escape(text[1..])|
  {
    assert Escape(text) == EscapeChar(text[0]) + Escape(text[1..]);
    hide EscapeChar, Escape;
    Reassociated(EscapeChar(text[0]), Escape(text[1..]), rest);
  }

  lemma Reassociated(a: string, b: string, c: string)
    ensures (a + b) + c == a + (b + c) && |a + b| == |a| + |b|
  {
  }
}
