/** The string operations the patch reader leans on: lines, tokens, searching, and numbers as Rust parses them. */
module Text {
  import opened Options
  import opened Decimal

  const USIZE: nat := 0x1_0000_0000_0000_0000

  predicate StartsWith(s: string, prefix: string) { prefix <= s }

  // ---------------------------------------------------------------- lines

  // Where the first line ends: just after the first newline, or at the end of the text.
  function LineEnd(s: string): (n: nat)
    ensures n <= |s| && (s != "" ==> n > 0)
  {
    if s == "" then 0 else if s[0] == '\n' then 1 else 1 + LineEnd(s[1..])
  }

  // split_inclusive('\n')
  function Lines(s: string): seq<string>
    decreases |s|
  {
    if s == "" then [] else [s[..LineEnd(s)]] + Lines(s[LineEnd(s)..])
  }

  function Join(lines: seq<string>): string {
    if lines == [] then "" else lines[0] + Join(lines[1..])
  }

  // One newline, at the end.
  ghost predicate IsLine(line: string) {
    && line != "" && line[|line| - 1] == '\n'
    && forall i | 0 <= i < |line| - 1 :: line[i] != '\n'
  }

  lemma {:induction false} JoinLines(s: string)
    ensures Join(Lines(s)) == s
    decreases |s|
  {
    if s != "" {
      JoinLines(s[LineEnd(s)..]);
      assert Lines(s)[1..] == Lines(s[LineEnd(s)..]);
    }
  }

  lemma {:induction false} LineEndOf(line: string, rest: string)
    requires IsLine(line)
    ensures LineEnd(line + rest) == |line|
  {
    if |line| > 1 {
      assert (line + rest)[1..] == line[1..] + rest;
      LineEndOf(line[1..], rest);
    }
  }

  lemma {:induction false} LinesOfJoin(lines: seq<string>)
    requires forall i | 0 <= i < |lines| :: IsLine(lines[i])
    ensures Lines(Join(lines)) == lines
  {
    if lines != [] {
      var line, more := lines[0], lines[1..];
      var s := Join(lines);
      LineEndOf(line, Join(more));
      assert s[..|line|] == line && s[|line|..] == Join(more);
      LinesOfJoin(more);
      assert [line] + more == lines;
    }
  }

  lemma {:induction false} JoinAppend(a: seq<string>, b: seq<string>)
    ensures Join(a + b) == Join(a) + Join(b)
  {
    if a == [] {
      assert a + b == b;
    } else {
      assert (a + b)[1..] == a[1..] + b;
      JoinAppend(a[1..], b);
    }
  }

  // trim_end_matches(['\r', '\n'])
  function TrimEol(s: string): string {
    if s != "" && s[|s| - 1] in {'\r', '\n'} then TrimEol(s[..|s| - 1]) else s
  }

  // ---------------------------------------------------------------- searching and tokens

  // str::find
  function Find(s: string, needle: string): (r: Option<nat>)
    ensures r.Some? ==> r.value <= |s| && needle <= s[r.value..]
  {
    if needle <= s then Some(0)
    else if s == "" then None
    else
      var r := Find(s[1..], needle);
      if r.None? then None else assert s[1..][r.value..] == s[r.value + 1..]; Some(r.value + 1)
  }

  lemma {:induction false} FindFirst(s: string, needle: string, at: nat)
    requires at <= |s| && needle <= s[at..]
    requires forall i | 0 <= i < at :: !(needle <= s[i..])
    ensures Find(s, needle) == Some(at)
  {
    assert s[0..] == s;
    if at > 0 {
      assert !(needle <= s[0..]);
      forall i | 0 <= i < at - 1 ensures !(needle <= s[1..][i..]) {
        assert s[1..][i..] == s[i + 1..];
      }
      assert s[1..][at - 1..] == s[at..];
      FindFirst(s[1..], needle, at - 1);
    }
  }

  // char::is_whitespace: the Unicode White_Space property.
  predicate IsSpace(c: char) {
    var n := c as int;
    || 0x9 <= n <= 0xD || n == 0x20 || n == 0x85 || n == 0xA0 || n == 0x1680
    || 0x2000 <= n <= 0x200A || n == 0x2028 || n == 0x2029 || n == 0x202F || n == 0x205F || n == 0x3000
  }

  function SkipSpace(s: string): (r: string)
    ensures |r| <= |s| && (r != "" ==> !IsSpace(r[0]))
  {
    if s != "" && IsSpace(s[0]) then SkipSpace(s[1..]) else s
  }

  function TokenLength(s: string): (n: nat)
    ensures n <= |s|
  {
    if s == "" || IsSpace(s[0]) then 0 else 1 + TokenLength(s[1..])
  }

  // The next item of split_whitespace, and what is left.
  function NextToken(s: string): Option<(string, string)> {
    var t := SkipSpace(s);
    if t == "" then None else Some((t[..TokenLength(t)], t[TokenLength(t)..]))
  }

  lemma {:induction false} TokenEnds(token: string, rest: string)
    requires forall i | 0 <= i < |token| :: !IsSpace(token[i])
    requires rest == "" || IsSpace(rest[0])
    ensures TokenLength(token + rest) == |token|
  {
    if token == "" {
      assert token + rest == rest;
    } else {
      assert (token + rest)[1..] == token[1..] + rest;
      TokenEnds(token[1..], rest);
    }
  }

  // ---------------------------------------------------------------- numbers

  // str::parse::<usize>: an optional plus sign, digits, no overflow.
  function ParseUsize(s: string): (r: Option<nat>)
    ensures r.Some? ==> r.value < USIZE
  {
    var digits := if StartsWith(s, "+") then s[1..] else s;
    if digits == "" || !AllDigits(digits) then None
    else if Value(digits) >= USIZE then None
    else Some(Value(digits))
  }

  // A lower-case hexadecimal digit.
  function HexDigit(d: nat): char
    requires d < 16
  {
    if d < 10 then '0' + d as char else 'a' + (d - 10) as char
  }
}
