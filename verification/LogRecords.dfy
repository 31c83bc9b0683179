/** Log records and the checks a record must pass before it is sent. */
module LogRecords {
  import opened Options
  import Decimal

  datatype Level = Trace | Debug | Info | Warn | Error | Fatal

  function LevelName(level: Level): string {
    match level
    case Trace => "trace"
    case Debug => "debug"
    case Info => "info"
    case Warn => "warn"
    case Error => "error"
    case Fatal => "fatal"
  }

  // A float is given by its JSON literal; one that is not finite turns into null with the record.
  datatype Attr = NullAttr | BoolAttr(b: bool) | IntAttr(n: int) | FloatAttr(literal: string) | TextAttr(text: string)

  type Attrs = map<string, Attr>

  datatype LogRecord = LogRecord(
    ts: int, level: Level, message: string, attrs: Attrs, logger: Option<string>, seqNo: int, revision: Option<int>)

  datatype Limits = Limits(maxDepth: nat, maxLogRecordBytes: nat, maxStringBytes: nat)

  datatype Code = Depth | Schema | Bytes | StringBytes | Revision | Count

  const MAX_ATTRS: nat := 64
  const MAX_SAFE: int := 0x1F_FFFF_FFFF_FFFF

  predicate HasReserved(attrs: Attrs) { "__proto__" in attrs || "constructor" in attrs || "prototype" in attrs }

  // ---------------------------------------------------------------- sizes

  function CharBytes(c: char): nat {
    var n := c as int;
    if n < 0x80 then 1 else if n < 0x800 then 2 else if n < 0x1_0000 then 3 else 4
  }

  // The length of a string in UTF-8.
  function TextBytes(s: string): nat {
    if s == "" then 0 else CharBytes(s[0]) + TextBytes(s[1..])
  }

  function JsonCharBytes(c: char): nat {
    var n := c as int;
    if c == '"' || c == '\\' || n == 8 || n == 9 || n == 10 || n == 12 || n == 13 then 2
    else if n < 0x20 then 6
    else CharBytes(c)
  }

  function JsonCharsBytes(s: string): nat {
    if s == "" then 0 else JsonCharBytes(s[0]) + JsonCharsBytes(s[1..])
  }

  function JsonTextBytes(s: string): nat { 2 + JsonCharsBytes(s) }

  function IntBytes(n: int): nat {
    if n < 0 then 1 + |Decimal.Show(-n)| else |Decimal.Show(n)|
  }

  function AttrBytes(a: Attr): nat {
    match a
    case NullAttr => 4
    case BoolAttr(b) => if b then 4 else 5
    case IntAttr(n) => IntBytes(n)
    case FloatAttr(literal) => |literal|
    case TextAttr(text) => JsonTextBytes(text)
  }

  // One attribute with its key, colon and comma.
  function EntryBytes(key: string, a: Attr): nat { JsonTextBytes(key) + 1 + AttrBytes(a) + 1 }

  ghost function EntriesBytes(attrs: Attrs): nat
    decreases |attrs|
  {
    if attrs == map[] then 0
    else
      var key :| key in attrs;
      assert (attrs - {key}).Keys == attrs.Keys - {key};
      EntryBytes(key, attrs[key]) + EntriesBytes(attrs - {key})
  }

  // The bytes of `,"attrs":{}` and of the other names, quotes, colons, commas and braces.
  const ATTRS_FRAME: nat := 11
  const RECORD_FRAME: nat := 36
  const LOGGER_FRAME: nat := 10
  const REVISION_FRAME: nat := 12

  // An empty attribute map is not written at all; the last entry has no comma.
  ghost function AttrsBytes(attrs: Attrs): nat {
    if attrs == map[] then 0 else ATTRS_FRAME + EntriesBytes(attrs) - (if EntriesBytes(attrs) > 0 then 1 else 0)
  }

  function FixedBytes(r: LogRecord): nat {
    RECORD_FRAME
    + IntBytes(r.ts) + |LevelName(r.level)| + JsonTextBytes(r.message) + IntBytes(r.seqNo)
    + (if r.logger.Some? then LOGGER_FRAME + JsonTextBytes(r.logger.value) else 0)
    + (if r.revision.Some? then REVISION_FRAME + IntBytes(r.revision.value) else 0)
  }

  // The length of the serialised record.
  ghost function RecordBytes(r: LogRecord): nat { FixedBytes(r) + AttrsBytes(r.attrs) }

  // Which attribute is counted first does not matter.
  lemma {:induction false} EntriesWithout(attrs: Attrs, key: string)
    requires key in attrs
    ensures EntriesBytes(attrs) == EntryBytes(key, attrs[key]) + EntriesBytes(attrs - {key})
    decreases |attrs|
  {
    var first :| first in attrs
                 && EntriesBytes(attrs) == EntryBytes(first, attrs[first]) + EntriesBytes(attrs - {first});
    if first != key {
      var m, n := attrs - {first}, attrs - {key};
      assert m.Keys == attrs.Keys - {first} && n.Keys == attrs.Keys - {key};
      EntriesWithout(m, key);
      EntriesWithout(n, first);
      assert m - {key} == n - {first};
    }
  }

  // ---------------------------------------------------------------- validate_log_record

  predicate AttrOk(key: string, a: Attr, limits: Limits) {
    && TextBytes(key) <= limits.maxStringBytes
    && (a.TextAttr? ==> TextBytes(a.text) <= limits.maxStringBytes)
  }

  ghost predicate AttrsOk(attrs: Attrs, limits: Limits) {
    forall key | key in attrs :: AttrOk(key, attrs[key], limits)
  }

  predicate Safe(n: int, least: int) { least <= n <= MAX_SAFE }

  // The first check that fails, if any.
  ghost function Verdict(r: LogRecord, limits: Limits): Option<Code> {
    if r.attrs != map[] && limits.maxDepth == 0 then Some(Depth)
    else if HasReserved(r.attrs) then Some(Schema)
    else if RecordBytes(r) > limits.maxLogRecordBytes then Some(Bytes)
    else if !Safe(r.ts, 1) then Some(Schema)
    else if TextBytes(r.message) > limits.maxStringBytes then Some(StringBytes)
    else if !Safe(r.seqNo, 0) then Some(Schema)
    else if r.logger.Some? && TextBytes(r.logger.value) > limits.maxStringBytes then Some(StringBytes)
    else if r.revision.Some? && !Safe(r.revision.value, 1) then Some(Revision)
    else if |r.attrs| > MAX_ATTRS then Some(Count)
    else if !AttrsOk(r.attrs, limits) then Some(StringBytes)
    else None
  }

  ghost predicate Valid(r: LogRecord, limits: Limits) { Verdict(r, limits).None? }

  method CountEntries(attrs: Attrs) returns (total: nat)
    ensures total == EntriesBytes(attrs)
  {
    total := 0;
    var rest := attrs;
    while rest != map[]
      invariant total + EntriesBytes(rest) == EntriesBytes(attrs)
      decreases |rest|
    {
      var key :| key in rest;
      EntriesWithout(rest, key);
      assert (rest - {key}).Keys == rest.Keys - {key};
      total := total + EntryBytes(key, rest[key]);
      rest := rest - {key};
    }
  }

  method CheckAttrs(attrs: Attrs, limits: Limits) returns (ok: bool)
    ensures ok <==> AttrsOk(attrs, limits)
  {
    var rest := attrs;
    while rest != map[]
      invariant forall key | key in rest :: key in attrs && rest[key] == attrs[key]
      invariant forall key | key in attrs && key !in rest :: AttrOk(key, attrs[key], limits)
      decreases |rest|
    {
      var key :| key in rest;
      if !AttrOk(key, rest[key], limits) {
        return false;
      }
      assert (rest - {key}).Keys == rest.Keys - {key};
      rest := rest - {key};
    }
    return true;
  }

  /** The validator's loops: the first failing check, in the source's order. */
  method ValidateLogRecord(r: LogRecord, limits: Limits) returns (v: Option<Code>)
    ensures v == Verdict(r, limits)
  {
    if r.attrs != map[] && limits.maxDepth == 0 {
      return Some(Depth);
    }
    if HasReserved(r.attrs) {
      return Some(Schema);
    }
    var entries := CountEntries(r.attrs);
    var bytes := FixedBytes(r);
    if r.attrs != map[] {
      bytes := bytes + ATTRS_FRAME + entries - (if entries > 0 then 1 else 0);
    }
    if bytes > limits.maxLogRecordBytes {
      return Some(Bytes);
    }
    if !Safe(r.ts, 1) {
      return Some(Schema);
    }
    if TextBytes(r.message) > limits.maxStringBytes {
      return Some(StringBytes);
    }
    if !Safe(r.seqNo, 0) {
      return Some(Schema);
    }
    if r.logger.Some? && TextBytes(r.logger.value) > limits.maxStringBytes {
      return Some(StringBytes);
    }
    if r.revision.Some? && !Safe(r.revision.value, 1) {
      return Some(Revision);
    }
    if |r.attrs| > MAX_ATTRS {
      return Some(Count);
    }
    var ok := CheckAttrs(r.attrs, limits);
    return if ok then None else Some(StringBytes);
  }

  // ---------------------------------------------------------------- fewer attributes

  function Without(r: LogRecord, key: string): LogRecord { r.(attrs := r.attrs - {key}) }

  lemma SizeShrinks(r: LogRecord, key: string)
    ensures RecordBytes(Without(r, key)) <= RecordBytes(r) && |r.attrs - {key}| <= |r.attrs|
  {
    if key in r.attrs {
      EntriesWithout(r.attrs, key);
      assert (r.attrs - {key}).Keys == r.attrs.Keys - {key};
    } else {
      assert r.attrs - {key} == r.attrs;
    }
  }

  /** A valid record stays valid when an attribute is taken away. */
  lemma ValidShrinks(r: LogRecord, key: string, limits: Limits)
    requires Valid(r, limits)
    ensures Valid(Without(r, key), limits)
  {
    SizeShrinks(r, key);
    var attrs := r.attrs - {key};
    assert attrs.Keys <= r.attrs.Keys;
    forall k | k in attrs ensures AttrOk(k, attrs[k], limits) { assert attrs[k] == r.attrs[k]; }
  }

  function Replaced(r: LogRecord, key: string, n: int): LogRecord { r.(attrs := r.attrs[key := IntAttr(n)]) }

  /** A number in place of an attribute spoils a valid record by its length only. */
  lemma ReplacedIsValid(r: LogRecord, key: string, n: int, limits: Limits)
    requires Valid(r, limits) && key in r.attrs
    ensures Valid(Replaced(r, key, n), limits) <==> RecordBytes(Replaced(r, key, n)) <= limits.maxLogRecordBytes
  {
    var more := Replaced(r, key, n).attrs;
    assert more.Keys == r.attrs.Keys;
    assert |more| == |r.attrs| by { assert |more.Keys| == |r.attrs.Keys|; }
    assert HasReserved(more) == HasReserved(r.attrs);
    assert AttrsOk(more, limits) by {
      forall k | k in more ensures AttrOk(k, more[k], limits) { assert AttrOk(k, r.attrs[k], limits); }
    }
  }
}
