/** The cursor-based JSON reader of the patch set. */
module Json {
  import opened Options
  import opened Text

  datatype Error =
    | UnexpectedEnd | ExpectedLiteral | ExpectedColon | UnexpectedInObject | UnterminatedArray | DanglingEscape
    | TruncatedEscape | BadEscape | BadCodePoint | UnterminatedString | NotANumber

  datatype Result<+T> = Ok(value: T) | Err(error: Error)

  // Numbers are whatever f64's own parser makes of a literal.
  datatype Value<+F> =
    | Object(entries: seq<(string, Value<F>)>)
    | Array(items: seq<Value<F>>)
    | Str(text: string)
    | Number(number: F)
    | Bool(b: bool)
    | Null

  // str::parse::<f64>; it refuses the empty string.
  type NumberParser<!F> = string -> Option<F>

  // ---------------------------------------------------------------- what the reader makes of the text ahead
  // Each function reads from the front of `s` and gives back what is left.

  function TakeLiteral<T>(s: string, literal: string, value: T): Result<(T, string)> {
    if literal <= s then Ok((value, s[|literal|..])) else Err(ExpectedLiteral)
  }

  function HexValue(c: char): Option<nat> {
    if '0' <= c <= '9' then Some(c as int - '0' as int)
    else if 'a' <= c <= 'f' then Some(c as int - 'a' as int + 10)
    else if 'A' <= c <= 'F' then Some(c as int - 'A' as int + 10)
    else None
  }

  function HexDigits(s: string): (r: Option<nat>)
    ensures r.Some? && |s| == 4 ==> r.value < 0x1_0000
    ensures r.Some? && |s| == 3 ==> r.value < 0x1000
    ensures r.Some? && |s| == 2 ==> r.value < 0x100
    ensures r.Some? && |s| == 1 ==> r.value < 0x10
    ensures r.Some? && |s| == 0 ==> r.value == 0
  {
    if s == "" then Some(0)
    else
      var high, low := HexDigits(s[..|s| - 1]), HexValue(s[|s| - 1]);
      if high.None? || low.None? then None else Some(16 * high.value + low.value)
  }

  // u32::from_str_radix(_, 16) on four characters: a plus sign may come first.
  function HexCode(s: string): (r: Option<nat>)
    requires |s| == 4
    ensures r.Some? ==> r.value < 0x1_0000
  {
    HexDigits(if s[0] == '+' then s[1..] else s)
  }

  predicate IsSurrogate(code: nat) { 0xD800 <= code < 0xE000 }

  function Unescape(c: char): char {
    match c
    case 'n' => '\n'
    case 't' => '\t'
    case 'r' => '\r'
    case 'b' => 8 as char
    case 'f' => 12 as char
    case _ => c
  }

  // One step inside a string: the closing quote, or a character and how much text it took.
  datatype Piece = Quote | Piece(c: char, size: nat)

  function NextPiece(s: string): (r: Result<Piece>)
    ensures r.Ok? && r.value.Piece? ==> 0 < r.value.size <= |s|
    ensures r.Ok? ==> s != ""
  {
    if s == "" then Err(UnterminatedString)
    else if s[0] == '"' then Ok(Quote)
    else if s[0] != '\\' then Ok(Piece(s[0], 1))
    else if |s| < 2 then Err(DanglingEscape)
    else if s[1] != 'u' then Ok(Piece(Unescape(s[1]), 2))
    else if |s| < 6 then Err(TruncatedEscape)
    else
      var code := HexCode(s[2..6]);
      if code.None? then Err(BadEscape)
      else if IsSurrogate(code.value) then Err(BadCodePoint)
      else Ok(Piece(code.value as char, 6))
  }

  // The rest of a string whose first characters were `out`.
  function StringFrom(s: string, out: string): (r: Result<(string, string)>)
    ensures r.Ok? ==> |r.value.1| < |s|
    decreases |s|
  {
    var piece := NextPiece(s);
    if piece.Err? then Err(piece.error)
    else match piece.value
      case Quote => Ok((out, s[1..]))
      case Piece(c, size) => StringFrom(s[size..], out + [c])
  }

  predicate NumberChar(c: char) { '0' <= c <= '9' || c == '+' || c == '-' || c == '.' || c == 'e' || c == 'E' }

  function NumberLength(s: string): (n: nat)
    ensures n <= |s|
  {
    if s != "" && NumberChar(s[0]) then 1 + NumberLength(s[1..]) else 0
  }

  function ParseNumber<F>(s: string, number: NumberParser<F>): (r: Result<(Value<F>, string)>)
    ensures r.Ok? ==> |r.value.1| < |s|
  {
    var n := NumberLength(s);
    if n == 0 || number(s[..n]).None? then Err(NotANumber) else Ok((Number(number(s[..n]).value), s[n..]))
  }

  function ParseValue<F>(s: string, number: NumberParser<F>): (r: Result<(Value<F>, string)>)
    ensures r.Ok? ==> |r.value.1| < |s|
    decreases |s|, 0
  {
    var t := SkipSpace(s);
    if t == "" then Err(UnexpectedEnd)
    else if t[0] == '{' then ObjectFrom(t[1..], [], number)
    else if t[0] == '[' then ArrayFrom(t[1..], [], number)
    else if t[0] == '"' then
      var str := StringFrom(t[1..], "");
      if str.Err? then Err(str.error) else Ok((Str(str.value.0), str.value.1))
    else if t[0] == 't' then TakeLiteral(t, "true", Bool(true))
    else if t[0] == 'f' then TakeLiteral(t, "false", Bool(false))
    else if t[0] == 'n' then TakeLiteral(t, "null", Null)
    else ParseNumber(t, number)
  }

  // The rest of an object whose first entries were `entries`; commas may be missing or repeated.
  function ObjectFrom<F>(s: string, entries: seq<(string, Value<F>)>,
                         number: NumberParser<F>): (r: Result<(Value<F>, string)>)
    ensures r.Ok? ==> |r.value.1| < |s|
    decreases |s|, 1
  {
    var t := SkipSpace(s);
    if t == "" then Err(UnexpectedInObject)
    else if t[0] == '}' then Ok((Object(entries), t[1..]))
    else if t[0] == ',' then ObjectFrom(t[1..], entries, number)
    else if t[0] == '"' then
      var entry := EntryFrom(t[1..], number);
      if entry.Err? then Err(entry.error) else ObjectFrom(entry.value.1, entries + [entry.value.0], number)
    else Err(UnexpectedInObject)
  }

  // A key, after its opening quote, a colon and a value.
  function EntryFrom<F>(s: string, number: NumberParser<F>): (r: Result<((string, Value<F>), string)>)
    ensures r.Ok? ==> |r.value.1| < |s|
    decreases |s|, 1
  {
    var key := StringFrom(s, "");
    if key.Err? then Err(key.error)
    else
      var u := SkipSpace(key.value.1);
      if u == "" || u[0] != ':' then Err(ExpectedColon)
      else
        var value := ParseValue(u[1..], number);
        if value.Err? then Err(value.error) else Ok(((key.value.0, value.value.0), value.value.1))
  }

  function ArrayFrom<F>(s: string, items: seq<Value<F>>, number: NumberParser<F>): (r: Result<(Value<F>, string)>)
    ensures r.Ok? ==> |r.value.1| < |s|
    decreases |s|, 1
  {
    var t := SkipSpace(s);
    if t == "" then Err(UnterminatedArray)
    else if t[0] == ']' then Ok((Array(items), t[1..]))
    else if t[0] == ',' then ArrayFrom(t[1..], items, number)
    else
      var value := ParseValue(t, number);
      if value.Err? then value else ArrayFrom(value.value.1, items + [value.value.0], number)
  }
}
