/** The reader itself: one cursor into the text, moved by loops. */
module JsonReader {
  import opened Options
  import opened Text
  import opened Json

  // A result with a cursor says what the specification says of the text ahead.
  ghost predicate Reads<T(!new)>(r: Result<(T, nat)>, spec: Result<(T, string)>, text: string) {
    match spec
    case Err(error) => r == Err(error)
    case Ok((value, rest)) => r.Ok? && r.value.0 == value && r.value.1 <= |text| && text[r.value.1..] == rest
  }

  // skip_space
  method Skip(text: string, cursor: nat) returns (c: nat)
    requires cursor <= |text|
    ensures cursor <= c <= |text| && text[c..] == SkipSpace(text[cursor..])
  {
    c := cursor;
    while c < |text| && IsSpace(text[c])
      invariant cursor <= c <= |text| && SkipSpace(text[c..]) == SkipSpace(text[cursor..])
    {
      assert text[c..][1..] == text[c + 1..];
      c := c + 1;
    }
  }

  // take_literal
  method ReadLiteral<T(!new)>(text: string, cursor: nat, literal: string, value: T) returns (r: Result<(T, nat)>)
    requires cursor <= |text|
    ensures Reads(r, TakeLiteral(text[cursor..], literal, value), text)
  {
    var s := text[cursor..];
    for i := 0 to |literal|
      invariant cursor + i <= |text| && literal[..i] <= s
    {
      if cursor + i >= |text| || text[cursor + i] != literal[i] {
        assert i >= |s| || s[i] != literal[i];
        return Err(ExpectedLiteral);
      }
      assert s[i] == literal[i];
      assert literal[..i + 1] == literal[..i] + [literal[i]];
      assert s[..i + 1] == s[..i] + [s[i]];
    }
    assert literal[..|literal|] == literal;
    return Ok((value, cursor + |literal|));
  }

  // parse_string, from the opening quote
  method ReadString(text: string, cursor: nat) returns (r: Result<(string, nat)>)
    requires cursor < |text| && text[cursor] == '"'
    ensures Reads(r, StringFrom(text[cursor + 1..], ""), text)
    ensures r.Ok? ==> cursor < r.value.1 <= |text|
  {
    ghost var spec := StringFrom(text[cursor + 1..], "");
    var c := cursor + 1;
    var out := "";
    while c < |text|
      invariant cursor < c <= |text|
      invariant StringFrom(text[c..], out) == spec
    {
      ghost var s := text[c..];
      var character := text[c];
      c := c + 1;
      assert s[1..] == text[c..];
      if character == '"' {
        return Ok((out, c));
      }
      if character == '\\' {
        if c >= |text| {
          return Err(DanglingEscape);
        }
        var escape := text[c];
        assert s[1] == escape && s[2..] == text[c + 1..];
        c := c + 1;
        if escape == 'u' {
          if c + 4 > |text| {
            return Err(TruncatedEscape);
          }
          var code := HexCode(text[c..c + 4]);
          assert s[2..6] == text[c..c + 4] && s[6..] == text[c + 4..];
          c := c + 4;
          if code.None? {
            return Err(BadEscape);
          }
          if IsSurrogate(code.value) {
            return Err(BadCodePoint);
          }
          out := out + [code.value as char];
        } else {
          out := out + [Unescape(escape)];
        }
      } else {
        out := out + [character];
      }
    }
    assert text[c..] == "";
    return Err(UnterminatedString);
  }

  // parse_number
  method ReadNumber<F(!new)>(text: string, cursor: nat, number: NumberParser<F>) returns (r: Result<(Value<F>, nat)>)
    requires cursor <= |text|
    ensures Reads(r, ParseNumber(text[cursor..], number), text)
  {
    ghost var s := text[cursor..];
    var c := cursor;
    while c < |text| && NumberChar(text[c])
      invariant cursor <= c <= |text| && NumberLength(s) == c - cursor + NumberLength(text[c..])
    {
      assert text[c..][1..] == text[c + 1..];
      c := c + 1;
    }
    var literal := text[cursor..c];
    assert literal == s[..c - cursor] && text[c..] == s[c - cursor..];
    if literal == "" {
      return Err(NotANumber);
    }
    var parsed := number(literal);
    if parsed.None? {
      return Err(NotANumber);
    }
    return Ok((Number(parsed.value), c));
  }

  /** parse_value: it always ends, a success moves the cursor forward and never past the end, and what it reads is
      what the specification reads. */
  method ReadValue<F(!new)>(text: string, cursor: nat, number: NumberParser<F>) returns (r: Result<(Value<F>, nat)>)
    requires cursor <= |text|
    ensures Reads(r, ParseValue(text[cursor..], number), text)
    ensures r.Ok? ==> cursor < r.value.1 <= |text|
    decreases |text| - cursor, 0
  {
    var c := Skip(text, cursor);
    if c == |text| {
      return Err(UnexpectedEnd);
    }
    assert text[c..][0] == text[c] && text[c..][1..] == text[c + 1..];
    match text[c] {
      case '{' => r := ReadObject(text, c + 1, number);
      case '[' => r := ReadArray(text, c + 1, number);
      case '"' =>
        var str := ReadString(text, c);
        if str.Err? {
          return Err(str.error);
        }
        return Ok((Str(str.value.0), str.value.1));
      case 't' => r := ReadLiteral(text, c, "true", Bool(true));
      case 'f' => r := ReadLiteral(text, c, "false", Bool(false));
      case 'n' => r := ReadLiteral(text, c, "null", Null);
      case _ => r := ReadNumber(text, c, number);
    }
  }

  // parse_array, after the bracket
  method ReadArray<F(!new)>(text: string, cursor: nat, number: NumberParser<F>) returns (r: Result<(Value<F>, nat)>)
    requires cursor <= |text|
    ensures Reads(r, ArrayFrom(text[cursor..], [], number), text)
    decreases |text| - cursor, 1
  {
    ghost var spec := ArrayFrom(text[cursor..], [], number);
    var items: seq<Value<F>> := [];
    var c := cursor;
    while true
      invariant cursor <= c <= |text|
      invariant ArrayFrom(text[c..], items, number) == spec
      decreases |text| - c
    {
      var at := Skip(text, c);
      if at == |text| {
        return Err(UnterminatedArray);
      }
      assert text[at..][0] == text[at] && text[at..][1..] == text[at + 1..];
      assert SkipSpace(text[at..]) == text[at..];
      if text[at] == ']' {
        return Ok((Array(items), at + 1));
      } else if text[at] == ',' {
        c := at + 1;
      } else {
        var value := ReadValue(text, at, number);
        if value.Err? {
          return Err(value.error);
        }
        items := items + [value.value.0];
        c := value.value.1;
      }
    }
  }

  // One entry of an object, from its key's quote.
  method ReadEntry<F(!new)>(text: string, cursor: nat, number: NumberParser<F>)
    returns (r: Result<((string, Value<F>), nat)>)
    requires cursor < |text| && text[cursor] == '"'
    ensures Reads(r, EntryFrom(text[cursor + 1..], number), text)
    ensures r.Ok? ==> cursor < r.value.1 <= |text|
    decreases |text| - cursor, 1
  {
    var key := ReadString(text, cursor);
    if key.Err? {
      return Err(key.error);
    }
    var c := Skip(text, key.value.1);
    if c == |text| || text[c] != ':' {
      return Err(ExpectedColon);
    }
    assert text[c..][0] == text[c] && text[c..][1..] == text[c + 1..];
    var value := ReadValue(text, c + 1, number);
    if value.Err? {
      return Err(value.error);
    }
    return Ok(((key.value.0, value.value.0), value.value.1));
  }

  // parse_object, after the brace
  method ReadObject<F(!new)>(text: string, cursor: nat, number: NumberParser<F>) returns (r: Result<(Value<F>, nat)>)
    requires cursor <= |text|
    ensures Reads(r, ObjectFrom(text[cursor..], [], number), text)
    decreases |text| - cursor, 2
  {
    ghost var spec := ObjectFrom(text[cursor..], [], number);
    var entries: seq<(string, Value<F>)> := [];
    var c := cursor;
    while true
      invariant cursor <= c <= |text|
      invariant ObjectFrom(text[c..], entries, number) == spec
      decreases |text| - c
    {
      var at := Skip(text, c);
      if at == |text| {
        return Err(UnexpectedInObject);
      }
      assert text[at..][0] == text[at] && text[at..][1..] == text[at + 1..];
      match text[at] {
        case '}' => return Ok((Object(entries), at + 1));
        case ',' => c := at + 1;
        case '"' =>
          var entry := ReadEntry(text, at, number);
          if entry.Err? {
            return Err(entry.error);
          }
          entries := entries + [entry.value.0];
          c := entry.value.1;
        case _ => return Err(UnexpectedInObject);
      }
    }
  }

  /** json::parse; what follows the value is not looked at. */
  method ReadJson<F(!new)>(text: string, number: NumberParser<F>) returns (r: Result<Value<F>>)
    ensures var spec := ParseValue(text, number);
      r == if spec.Err? then Err(spec.error) else Ok(spec.value.0)
  {
    assert text[0..] == text;
    var value := ReadValue(text, 0, number);
    if value.Err? {
      return Err(value.error);
    }
    return Ok(value.value.0);
  }
}
