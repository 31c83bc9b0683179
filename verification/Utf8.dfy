/** UTF-8, and the text that String::from_utf8_lossy makes of any bytes. */
module Utf8 {
  import opened Bytes

  // ---------------------------------------------------------------- one character

  predicate IsTrail(b: Byte) { 0x80 <= b < 0xC0 }

  predicate IsLead(b: Byte) { b < 0x80 || 0xC2 <= b < 0xF5 }

  // How many bytes follow a lead byte.
  function Wanted(lead: Byte): nat {
    if lead < 0x80 then 0 else if lead < 0xE0 then 1 else if lead < 0xF0 then 2 else 3
  }

  // The second byte rules out overlong forms, surrogates and code points above U+10FFFF.
  predicate IsSecond(lead: Byte, b: Byte) {
    if lead == 0xE0 then 0xA0 <= b < 0xC0
    else if lead == 0xED then 0x80 <= b < 0xA0
    else if lead == 0xF0 then 0x90 <= b < 0xC0
    else if lead == 0xF4 then 0x80 <= b < 0x90
    else IsTrail(b)
  }

  // How many bytes make up the next character, or the longest start of one that goes wrong, and which of the two.
  function Scan(s: seq<Byte>): (r: (nat, bool))
    requires s != []
    ensures 1 <= r.0 <= |s|
  {
    var wanted := Wanted(s[0]);
    if !IsLead(s[0]) then (1, false)
    else if wanted == 0 then (1, true)
    else if |s| < 2 || !IsSecond(s[0], s[1]) then (1, false)
    else if wanted == 1 then (2, true)
    else if |s| < 3 || !IsTrail(s[2]) then (2, false)
    else if wanted == 2 then (3, true)
    else if |s| < 4 || !IsTrail(s[3]) then (3, false)
    else (4, true)
  }

  predicate Valid(s: seq<Byte>) {
    s == [] || (Scan(s).1 && Valid(s[Scan(s).0..]))
  }

  // U+FFFD
  const REPLACEMENT: seq<Byte> := [0xEF, 0xBF, 0xBD]

  function Lossy(s: seq<Byte>): seq<Byte> {
    if s == [] then []
    else (if Scan(s).1 then s[..Scan(s).0] else REPLACEMENT) + Lossy(s[Scan(s).0..])
  }

  // ---------------------------------------------------------------- what survives

  lemma ReplacementScans(rest: seq<Byte>)
    ensures Scan(REPLACEMENT + rest) == (3, true)
  {
  }

  lemma WholeScans(s: seq<Byte>, rest: seq<Byte>)
    requires s != [] && Scan(s).1
    ensures Scan(s[..Scan(s).0] + rest) == Scan(s)
  {
  }

  /** The text is valid, whatever the bytes. */
  lemma {:induction false} LossyIsValid(s: seq<Byte>)
    ensures Valid(Lossy(s))
  {
    if s != [] {
      var (n, whole) := Scan(s);
      var rest := Lossy(s[n..]);
      LossyIsValid(s[n..]);
      if whole {
        WholeScans(s, rest);
        assert (s[..n] + rest)[n..] == rest;
      } else {
        ReplacementScans(rest);
        assert (REPLACEMENT + rest)[3..] == rest;
      }
    }
  }

  /** The text is the bytes exactly when they are valid UTF-8. */
  lemma {:induction false} LossyKeepsValid(s: seq<Byte>)
    ensures Lossy(s) == s <==> Valid(s)
  {
    if s != [] {
      var (n, whole) := Scan(s);
      var rest := s[n..];
      LossyKeepsValid(rest);
      assert s == s[..n] + rest;
      if whole {
        assert Lossy(s)[n..] == Lossy(rest);
      } else {
        ReplacementScans(Lossy(rest));
      }
    }
  }

  // A byte that cannot continue a character ends it.
  predicate Breaks(s: seq<Byte>) { s == [] || !IsTrail(s[0]) }

  lemma ScanStops(a: seq<Byte>, b: seq<Byte>)
    requires a != [] && Breaks(b)
    ensures Scan(a + b) == Scan(a)
  {
  }

  lemma Regroup(a: seq<Byte>, b: seq<Byte>, c: seq<Byte>)
    ensures a + (b + c) == a + b + c
  {
  }

  lemma LossyStep(s: seq<Byte>, n: nat, whole: bool, rest: seq<Byte>)
    requires s != [] && Scan(s) == (n, whole) && s[n..] == rest
    ensures Lossy(s) == (if whole then s[..n] else REPLACEMENT) + Lossy(rest)
  {
  }

  lemma {:induction false} LossyAppends(a: seq<Byte>, b: seq<Byte>)
    requires Breaks(b)
    ensures Lossy(a + b) == Lossy(a) + Lossy(b)
    decreases |a|
  {
    if a == [] {
      assert a + b == b;
    } else {
      var (n, whole) := Scan(a);
      ScanStops(a, b);
      assert (a + b)[..n] == a[..n] && (a + b)[n..] == a[n..] + b;
      LossyStep(a + b, n, whole, a[n..] + b);
      LossyAppends(a[n..], b);
      Regroup(if whole then a[..n] else REPLACEMENT, Lossy(a[n..]), Lossy(b));
    }
  }

  lemma AsciiFirst(b: Byte, rest: seq<Byte>)
    requires b < 0x80
    ensures Lossy([b] + rest) == [b] + Lossy(rest)
  {
    assert ([b] + rest)[..1] == [b] && ([b] + rest)[1..] == rest;
  }

  // ASCII bytes come from themselves only.
  lemma {:induction false} LossyAddsNoAscii(s: seq<Byte>, b: Byte)
    requires b < 0x80 && b !in s
    ensures b !in Lossy(s)
  {
    if s != [] { LossyAddsNoAscii(s[Scan(s).0..], b); }
  }
}
