/** The text a log record is sent as: the validator's count is its length in bytes, and its verdicts are about it. */
module LogJson {
  import opened Options
  import opened LogRecords
  import Decimal
  import Text
  import Utf8Text

  // ---------------------------------------------------------------- the text

  // One character inside a JSON string.
  function Escaped(c: char): string {
    var n := c as int;
    if c == '"' then "\\\""
    else if c == '\\' then "\\\\"
    else if n == 8 then "\\b"
    else if n == 9 then "\\t"
    else if n == 10 then "\\n"
    else if n == 12 then "\\f"
    else if n == 13 then "\\r"
    else if n < 0x20 then "\\u00" + [Text.HexDigit(n / 16), Text.HexDigit(n % 16)]
    else [c]
  }

  function EscapedAll(s: string): string {
    if s == "" then "" else Escaped(s[0]) + EscapedAll(s[1..])
  }

  function Quoted(s: string): string { "\"" + EscapedAll(s) + "\"" }

  function IntText(n: int): string { if n < 0 then "-" + Decimal.Show(-n) else Decimal.Show(n) }

  function AttrText(a: Attr): string {
    match a
    case NullAttr => "null"
    case BoolAttr(b) => if b then "true" else "false"
    case IntAttr(n) => IntText(n)
    case FloatAttr(literal) => literal
    case TextAttr(text) => Quoted(text)
  }

  // The attributes in some order, separated by commas.
  function Members(attrs: Attrs, order: seq<string>): string
    requires forall key | key in order :: key in attrs
  {
    if order == [] then ""
    else
      Quoted(order[0]) + ":" + AttrText(attrs[order[0]])
      + if |order| == 1 then "" else "," + Members(attrs, order[1..])
  }

  function AttrsText(attrs: Attrs, order: seq<string>): string
    requires forall key | key in order :: key in attrs
  {
    if order == [] then "" else ",\"attrs\":{" + Members(attrs, order) + "}"
  }

  ghost predicate Lists(attrs: Attrs, order: seq<string>) {
    && (forall key :: key in order <==> key in attrs)
    && forall i, j | 0 <= i < j < |order| :: order[i] != order[j]
  }

  // The record's fields as they are declared; what is absent or empty is left out.
  function RecordText(r: LogRecord, order: seq<string>): string
    requires forall key | key in order :: key in r.attrs
  {
    "{\"ts\":" + IntText(r.ts) + ",\"level\":\"" + LevelName(r.level) + "\",\"message\":" + Quoted(r.message)
    + AttrsText(r.attrs, order)
    + (if r.logger.None? then "" else ",\"logger\":" + Quoted(r.logger.value))
    + ",\"seq\":" + IntText(r.seqNo)
    + (if r.revision.None? then "" else ",\"revision\":" + IntText(r.revision.value))
    + "}"
  }

  // ---------------------------------------------------------------- its length

  ghost function CodePoints(s: string): (cps: seq<int>)
    ensures Utf8Text.AllScalar(cps)
  {
    if s == "" then [] else [s[0] as int] + CodePoints(s[1..])
  }

  /** The bytes counted for a text are those of its UTF-8 encoding. */
  lemma {:induction false} BytesAreUtf8(s: string)
    ensures TextBytes(s) == |Utf8Text.EncodedAll(CodePoints(s))|
  {
    if s != "" {
      BytesAreUtf8(s[1..]);
      assert CodePoints(s)[1..] == CodePoints(s[1..]);
    }
  }

  lemma {:induction false} BytesAppend(s: string, t: string)
    ensures TextBytes(s + t) == TextBytes(s) + TextBytes(t)
  {
    if s == "" {
      assert s + t == t;
    } else {
      assert (s + t)[1..] == s[1..] + t;
      BytesAppend(s[1..], t);
    }
  }

  ghost predicate Ascii(s: string) { forall i | 0 <= i < |s| :: s[i] as int < 0x80 }

  lemma {:induction false} AsciiBytes(s: string)
    requires Ascii(s)
    ensures TextBytes(s) == |s|
  {
    if s != "" { AsciiBytes(s[1..]); }
  }

  lemma EscapedBytes(c: char)
    ensures TextBytes(Escaped(c)) == JsonCharBytes(c)
  {
    if Ascii(Escaped(c)) {
      AsciiBytes(Escaped(c));
    } else {
      assert [c][1..] == "";
    }
  }

  lemma {:induction false} EscapedAllBytes(s: string)
    ensures TextBytes(EscapedAll(s)) == JsonCharsBytes(s)
  {
    if s != "" {
      EscapedBytes(s[0]);
      EscapedAllBytes(s[1..]);
      BytesAppend(Escaped(s[0]), EscapedAll(s[1..]));
    }
  }

  lemma QuotedBytes(s: string)
    ensures TextBytes(Quoted(s)) == JsonTextBytes(s)
  {
    EscapedAllBytes(s);
    AsciiBytes("\"");
    BytesAppend("\"", EscapedAll(s));
    BytesAppend("\"" + EscapedAll(s), "\"");
  }

  lemma DigitBytes(s: string)
    requires Decimal.AllDigits(s)
    ensures TextBytes(s) == |s|
  {
    forall i | 0 <= i < |s| ensures s[i] as int < 0x80 { assert Decimal.IsDigit(s[i]); }
    AsciiBytes(s);
  }

  lemma IntTextBytes(n: int)
    ensures TextBytes(IntText(n)) == IntBytes(n)
  {
    var digits := Decimal.Show(if n < 0 then -n else n);
    DigitBytes(digits);
    AsciiBytes("-");
    BytesAppend("-", digits);
  }

  lemma Between(before: string, name: string, after: string)
    requires Ascii(name)
    ensures TextBytes(before + name + after) == TextBytes(before) + |name| + TextBytes(after)
  {
    AsciiBytes(name);
    BytesAppend(before, name);
    BytesAppend(before + name, after);
  }

  lemma Around(before: string, middle: string, after: string)
    requires Ascii(before) && Ascii(after)
    ensures TextBytes(before + middle + after) == |before| + TextBytes(middle) + |after|
  {
    AsciiBytes(before);
    AsciiBytes(after);
    BytesAppend(before, middle);
    BytesAppend(before + middle, after);
  }

  // The literals of numbers are ASCII.
  ghost predicate Printable(attrs: Attrs) {
    forall key | key in attrs && attrs[key].FloatAttr? :: Ascii(attrs[key].literal)
  }

  lemma AttrTextBytes(a: Attr)
    requires a.FloatAttr? ==> Ascii(a.literal)
    ensures TextBytes(AttrText(a)) == AttrBytes(a)
  {
    match a
    case NullAttr => AsciiBytes("null");
    case BoolAttr(b) => AsciiBytes(if b then "true" else "false");
    case IntAttr(n) => IntTextBytes(n);
    case FloatAttr(literal) => AsciiBytes(literal);
    case TextAttr(text) => QuotedBytes(text);
  }

  // One member, without its comma.
  lemma MemberBytes(key: string, a: Attr)
    requires a.FloatAttr? ==> Ascii(a.literal)
    ensures TextBytes(Quoted(key) + ":" + AttrText(a)) + 1 == EntryBytes(key, a)
  {
    QuotedBytes(key);
    AttrTextBytes(a);
    AsciiBytes(":");
    BytesAppend(Quoted(key), ":");
    BytesAppend(Quoted(key) + ":", AttrText(a));
  }

  lemma {:induction false} MembersAgree(a: Attrs, b: Attrs, order: seq<string>)
    requires forall key | key in order :: key in a && key in b && a[key] == b[key]
    ensures Members(a, order) == Members(b, order)
  {
    if order != [] { MembersAgree(a, b, order[1..]); }
  }

  lemma ListsRest(attrs: Attrs, order: seq<string>)
    requires order != [] && Lists(attrs, order)
    ensures Lists(attrs - {order[0]}, order[1..])
    ensures Members(attrs - {order[0]}, order[1..]) == Members(attrs, order[1..])
  {
    var key, rest := order[0], order[1..];
    forall k ensures k in rest <==> k in attrs - {key} {
      if k in attrs - {key} {
        var i :| 0 <= i < |order| && order[i] == k;
        assert rest[i - 1] == k;
      }
    }
    MembersAgree(attrs - {key}, attrs, rest);
  }

  /** In whatever order the attributes are written, they take the bytes that were counted, less the last comma. */
  lemma {:induction false} MembersBytes(attrs: Attrs, order: seq<string>)
    requires Lists(attrs, order) && Printable(attrs) && order != []
    ensures TextBytes(Members(attrs, order)) + 1 == EntriesBytes(attrs)
    decreases |order|
  {
    var key, rest := order[0], order[1..];
    var member := Quoted(key) + ":" + AttrText(attrs[key]);
    ListsRest(attrs, order);
    EntriesWithout(attrs, key);
    MemberBytes(key, attrs[key]);
    if |order| == 1 {
      assert attrs - {key} == map[];
      assert Members(attrs, order) == member;
    } else {
      MembersBytes(attrs - {key}, rest);
      AsciiBytes(",");
      BytesAppend(",", Members(attrs, rest));
      BytesAppend(member, "," + Members(attrs, rest));
      assert Members(attrs, order) == member + ("," + Members(attrs, rest));
    }
  }

  lemma ListsNothing(attrs: Attrs, order: seq<string>)
    requires Lists(attrs, order)
    ensures order == [] <==> attrs == map[]
  {
    if order == [] {
      assert attrs == map[] by { assert forall key :: key !in attrs; }
    } else {
      assert order[0] in attrs;
    }
  }

  lemma BracedBytes(members: string)
    ensures TextBytes(",\"attrs\":{" + members + "}") == ATTRS_FRAME + TextBytes(members)
  {
    Around(",\"attrs\":{", members, "}");
  }

  lemma AttrsTextBytes(attrs: Attrs, order: seq<string>)
    requires Lists(attrs, order) && Printable(attrs)
    ensures TextBytes(AttrsText(attrs, order)) == AttrsBytes(attrs)
  {
    ListsNothing(attrs, order);
    if order != [] {
      MembersBytes(attrs, order);
      BracedBytes(Members(attrs, order));
    }
  }

  lemma LoggerBytes(logger: Option<string>)
    ensures TextBytes(if logger.None? then "" else ",\"logger\":" + Quoted(logger.value))
            == if logger.Some? then LOGGER_FRAME + JsonTextBytes(logger.value) else 0
  {
    if logger.Some? {
      QuotedBytes(logger.value);
      AsciiBytes(",\"logger\":");
      BytesAppend(",\"logger\":", Quoted(logger.value));
    }
  }

  lemma RevisionBytes(revision: Option<int>)
    ensures TextBytes(if revision.None? then "" else ",\"revision\":" + IntText(revision.value))
            == if revision.Some? then REVISION_FRAME + IntBytes(revision.value) else 0
  {
    if revision.Some? {
      IntTextBytes(revision.value);
      AsciiBytes(",\"revision\":");
      BytesAppend(",\"revision\":", IntText(revision.value));
    }
  }

  lemma LevelBytes(level: Level)
    ensures TextBytes(LevelName(level)) == |LevelName(level)|
  {
    AsciiBytes(LevelName(level));
  }

  /** The validator counts the record's bytes without writing it: the count is the length of its text in UTF-8. */
  lemma CountedIsWritten(r: LogRecord, order: seq<string>)
    requires Lists(r.attrs, order) && Printable(r.attrs)
    ensures TextBytes(RecordText(r, order)) == RecordBytes(r)
  {
    var ts, level, message, seqNo := IntText(r.ts), LevelName(r.level), Quoted(r.message), IntText(r.seqNo);
    var attrs := AttrsText(r.attrs, order);
    var logger := if r.logger.None? then "" else ",\"logger\":" + Quoted(r.logger.value);
    var revision := if r.revision.None? then "" else ",\"revision\":" + IntText(r.revision.value);
    IntTextBytes(r.ts);
    LevelBytes(r.level);
    QuotedBytes(r.message);
    IntTextBytes(r.seqNo);
    AttrsTextBytes(r.attrs, order);
    LoggerBytes(r.logger);
    RevisionBytes(r.revision);
    FrameBytes(ts, level, message, attrs, logger, seqNo, revision);
  }

  lemma HeadBytes(ts: string, level: string, message: string)
    ensures TextBytes("{\"ts\":" + ts + ",\"level\":\"" + level + "\",\"message\":" + message)
            == 28 + TextBytes(ts) + TextBytes(level) + TextBytes(message)
  {
    var a := "{\"ts\":" + ts;
    var b := a + ",\"level\":\"" + level;
    AsciiBytes("{\"ts\":");
    BytesAppend("{\"ts\":", ts);
    Between(a, ",\"level\":\"", level);
    Between(b, "\",\"message\":", message);
  }

  lemma FrameBytes(ts: string, level: string, message: string, attrs: string, logger: string, seqNo: string,
                   revision: string)
    ensures TextBytes("{\"ts\":" + ts + ",\"level\":\"" + level + "\",\"message\":" + message + attrs + logger
                      + ",\"seq\":" + seqNo + revision + "}")
            == RECORD_FRAME + TextBytes(ts) + TextBytes(level) + TextBytes(message) + TextBytes(attrs)
               + TextBytes(logger) + TextBytes(seqNo) + TextBytes(revision)
  {
    HeadBytes(ts, level, message);
    TailBytes("{\"ts\":" + ts + ",\"level\":\"" + level + "\",\"message\":" + message, attrs, logger, seqNo, revision);
  }

  lemma TailBytes(head: string, attrs: string, logger: string, seqNo: string, revision: string)
    ensures TextBytes(head + attrs + logger + ",\"seq\":" + seqNo + revision + "}")
            == 8 + TextBytes(head) + TextBytes(attrs) + TextBytes(logger) + TextBytes(seqNo) + TextBytes(revision)
  {
    var d := head + attrs + logger;
    var e := d + ",\"seq\":" + seqNo;
    BytesAppend(head, attrs);
    BytesAppend(head + attrs, logger);
    Between(d, ",\"seq\":", seqNo);
    AsciiBytes("}");
    BytesAppend(e, revision);
    BytesAppend(e + revision, "}");
  }

  // ---------------------------------------------------------------- the verdicts

  ghost predicate TooLong(s: string, limits: Limits) { TextBytes(s) > limits.maxStringBytes }

  ghost predicate LongAttr(attrs: Attrs, limits: Limits) {
    exists key | key in attrs :: TooLong(key, limits) || (attrs[key].TextAttr? && TooLong(attrs[key].text, limits))
  }

  // What each code says of a record and its text.
  ghost predicate Fault(r: LogRecord, text: string, limits: Limits, code: Code) {
    match code
    case Depth => r.attrs != map[] && limits.maxDepth == 0
    case Schema =>
      || Reserved(r.attrs)
      || r.ts <= 0 || r.ts >= 0x20_0000_0000_0000 || r.seqNo < 0 || r.seqNo >= 0x20_0000_0000_0000
    case Bytes => TextBytes(text) > limits.maxLogRecordBytes
    case StringBytes =>
      || TooLong(r.message, limits) || (r.logger.Some? && TooLong(r.logger.value, limits))
      || LongAttr(r.attrs, limits)
    case Revision => r.revision.Some? && (r.revision.value <= 0 || r.revision.value >= 0x20_0000_0000_0000)
    case Count => |r.attrs| > 64
  }

  ghost predicate Reserved(attrs: Attrs) {
    exists key | key in ["__proto__", "constructor", "prototype"] :: key in attrs
  }

  lemma ReservedNames(attrs: Attrs)
    ensures HasReserved(attrs) <==> Reserved(attrs)
  {
    var names := ["__proto__", "constructor", "prototype"];
    assert names[0] in names && names[1] in names && names[2] in names;
  }

  lemma AttrsTooLong(attrs: Attrs, limits: Limits)
    ensures AttrsOk(attrs, limits) <==> !LongAttr(attrs, limits)
  {
    if AttrsOk(attrs, limits) {
      forall key | key in attrs
        ensures !TooLong(key, limits) && !(attrs[key].TextAttr? && TooLong(attrs[key].text, limits))
      {
        assert AttrOk(key, attrs[key], limits);
      }
    } else {
      var key :| key in attrs && !AttrOk(key, attrs[key], limits);
    }
  }

  /** A record passes exactly when nothing is wrong with it, and a refusal names something that is: first the depth,
      then reserved names, then the length of the text. */
  lemma VerdictSays(r: LogRecord, order: seq<string>, limits: Limits)
    requires Lists(r.attrs, order) && Printable(r.attrs)
    ensures var text, v := RecordText(r, order), Verdict(r, limits);
      && (v == None <==> forall code :: !Fault(r, text, limits, code))
      && (v.Some? ==> Fault(r, text, limits, v.value))
      && (Fault(r, text, limits, Depth) ==> v == Some(Depth))
      && (Fault(r, text, limits, Bytes) ==> v in {Some(Depth), Some(Schema), Some(Bytes)})
  {
    CountedIsWritten(r, order);
    VerdictOf(r, RecordText(r, order), limits, Verdict(r, limits));
  }

  lemma VerdictOf(r: LogRecord, text: string, limits: Limits, v: Option<Code>)
    requires TextBytes(text) == RecordBytes(r) && v == Verdict(r, limits)
    ensures v == None <==> forall code :: !Fault(r, text, limits, code)
    ensures v.Some? ==> Fault(r, text, limits, v.value)
    ensures Fault(r, text, limits, Depth) ==> v == Some(Depth)
    ensures Fault(r, text, limits, Bytes) ==> v in {Some(Depth), Some(Schema), Some(Bytes)}
  {
    ReservedNames(r.attrs);
    AttrsTooLong(r.attrs, limits);
    if v == None {
      forall code ensures !Fault(r, text, limits, code) { PassedHasNoFault(r, text, limits, code); }
    } else {
      assert Fault(r, text, limits, v.value);
    }
  }

  lemma PassedHasNoFault(r: LogRecord, text: string, limits: Limits, code: Code)
    requires TextBytes(text) == RecordBytes(r) && Verdict(r, limits) == None
    ensures !Fault(r, text, limits, code)
  {
    match code
    case Depth =>
    case Schema => ReservedNames(r.attrs);
    case Bytes =>
    case StringBytes => AttrsTooLong(r.attrs, limits);
    case Revision =>
    case Count =>
  }
}
