/** The byte-wise scan against the encoding of section 3 of RFC 3629. */
module Utf8Text {
  import opened Bytes
  import opened Utf8

  // A code point that is no surrogate.
  predicate Scalar(cp: int) { 0 <= cp < 0xD800 || 0xE000 <= cp < 0x11_0000 }

  function Encoded(cp: int): (s: seq<Byte>)
    requires Scalar(cp)
    ensures 1 <= |s| <= 4
  {
    if cp < 0x80 then [cp]
    else if cp < 0x800 then [0xC0 + cp / 64, 0x80 + cp % 64]
    else if cp < 0x1_0000 then [0xE0 + cp / 4096, 0x80 + cp / 64 % 64, 0x80 + cp % 64]
    else [0xF0 + cp / 262144, 0x80 + cp / 4096 % 64, 0x80 + cp / 64 % 64, 0x80 + cp % 64]
  }

  ghost predicate AllScalar(cps: seq<int>) { forall i | 0 <= i < |cps| :: Scalar(cps[i]) }

  ghost function EncodedAll(cps: seq<int>): seq<Byte>
    requires AllScalar(cps)
  {
    if cps == [] then [] else Encoded(cps[0]) + EncodedAll(cps[1..])
  }

  // ---------------------------------------------------------------- one character

  lemma ScanReads(cp: int, rest: seq<Byte>)
    requires Scalar(cp)
    ensures Scan(Encoded(cp) + rest) == (|Encoded(cp)|, true)
  {
    var s := Encoded(cp) + rest;
    if cp >= 0x1_0000 {
      assert s[0] == 0xF0 + cp / 262144 && s[1] == 0x80 + cp / 4096 % 64;
      assert cp / 4096 == 64 * (cp / 262144) + cp / 4096 % 64;
    } else if cp >= 0x800 {
      assert s[0] == 0xE0 + cp / 4096 && s[1] == 0x80 + cp / 64 % 64;
      assert cp / 64 == 64 * (cp / 4096) + cp / 64 % 64;
    }
  }

  lemma Two(a: nat, b: nat, cp: nat)
    requires b < 64 && cp == 64 * a + b
    ensures cp / 64 == a && cp % 64 == b
  {
  }

  lemma Three(a: nat, b: nat, c: nat, cp: nat)
    requires b < 64 && c < 64 && cp == 4096 * a + 64 * b + c
    ensures cp / 4096 == a && cp / 64 % 64 == b && cp % 64 == c
  {
    Two(64 * a + b, c, cp);
    Two(a, b, 64 * a + b);
  }

  lemma Four(a: nat, b: nat, c: nat, d: nat, cp: nat)
    requires b < 64 && c < 64 && d < 64 && cp == 262144 * a + 4096 * b + 64 * c + d
    ensures cp / 262144 == a && cp / 4096 % 64 == b && cp / 64 % 64 == c && cp % 64 == d
  {
    Three(64 * a + b, c, d, cp);
    Two(a, b, 64 * a + b);
  }

  // A lead and its trail bytes make a code point.
  lemma Compose(s: seq<Byte>, n: nat) returns (cp: int)
    requires s != [] && IsLead(s[0]) && n == 1 + Wanted(s[0]) && |s| == n
    requires n > 1 ==> IsSecond(s[0], s[1])
    requires forall i | 1 <= i < n :: IsTrail(s[i])
    ensures Scalar(cp) && Encoded(cp) == s
  {
    var bytes: seq<int> := seq(n, i requires 0 <= i < n => s[i] as int);
    if n == 1 {
      cp := s[0];
    } else if n == 2 {
      var a, b := bytes[0] - 0xC0, bytes[1] - 0x80;
      cp := 64 * a + b;
      Two(a, b, cp);
    } else if n == 3 {
      var a, b, c := bytes[0] - 0xE0, bytes[1] - 0x80, bytes[2] - 0x80;
      cp := 4096 * a + 64 * b + c;
      Three(a, b, c, cp);
    } else {
      var a, b, c, d := bytes[0] - 0xF0, bytes[1] - 0x80, bytes[2] - 0x80, bytes[3] - 0x80;
      cp := 262144 * a + 4096 * b + 64 * c + d;
      Four(a, b, c, d, cp);
    }
  }

  lemma ScanFinds(s: seq<Byte>) returns (cp: int)
    requires s != [] && Scan(s).1
    ensures Scalar(cp) && Encoded(cp) == s[..Scan(s).0]
  {
    cp := Compose(s[..Scan(s).0], Scan(s).0);
  }

  // ---------------------------------------------------------------- starts of characters

  // Some character's encoding goes on from here.
  ghost predicate Begins(s: seq<Byte>) { exists cp :: Scalar(cp) && s < Encoded(cp) }

  ghost predicate Holds(s: seq<Byte>) { exists cp :: Scalar(cp) && Encoded(cp) <= s }

  // The bytes completed by the least trail bytes that fit.
  function Filled(s: seq<Byte>): (t: seq<Byte>)
    requires s != [] && Wanted(s[0]) >= |s|
    ensures |t| == 1 + Wanted(s[0]) && s < t
  {
    var second := if s[0] == 0xE0 then 0xA0 else if s[0] == 0xF0 then 0x90 else 0x80;
    var tail: seq<Byte> := [second, 0x80, 0x80];
    s + tail[|s| - 1..Wanted(s[0])]
  }

  /** Where the scan meets no character, there is none; and what it skips is a byte that starts none, or the longest
      start of one. */
  lemma BrokenIsLongest(s: seq<Byte>)
    requires s != [] && !Scan(s).1
    ensures var n := Scan(s).0;
      && !Holds(s)
      && (n == 1 || Begins(s[..n]))
      && (n < |s| && Begins(s[..n]) ==> !Begins(s[..n + 1]))
  {
    var n := Scan(s).0;
    HeldIsRead(s);
    if n > 1 { StartBegins(s[..n]); }
    if n < |s| {
      forall cp | Scalar(cp) ensures !(s[..n + 1] < Encoded(cp)) {
        if s[..n + 1] < Encoded(cp) {
          ScanReads(cp, []);
          assert Encoded(cp) + [] == Encoded(cp);
          StopsSame(s, Encoded(cp), n);
        }
      }
    }
  }

  lemma HeldIsRead(s: seq<Byte>)
    requires s != []
    ensures Holds(s) ==> Scan(s).1
  {
    if cp :| Scalar(cp) && Encoded(cp) <= s {
      ScanReads(cp, s[|Encoded(cp)|..]);
      assert s == Encoded(cp) + s[|Encoded(cp)|..];
    }
  }

  lemma StartBegins(s: seq<Byte>)
    requires |s| > 1 && IsLead(s[0]) && |s| <= Wanted(s[0]) && IsSecond(s[0], s[1])
    requires forall i | 1 <= i < |s| :: IsTrail(s[i])
    ensures Begins(s)
  {
    var t := Filled(s);
    var cp := Compose(t, |t|);
  }

  // The scan stops at the same byte in every text that goes on alike.
  lemma StopsSame(s: seq<Byte>, t: seq<Byte>, n: nat)
    requires s != [] && Scan(s) == (n, false) && n < |s| && s[..n + 1] <= t
    ensures Scan(t) == (n, false)
  {
    assert forall i | 0 <= i <= n :: t[i] == s[..n + 1][i];
  }

  // ---------------------------------------------------------------- whole texts

  /** Bytes are valid exactly when they are the encodings of some code points, surrogates apart. */
  lemma {:induction false} ValidExactly(s: seq<Byte>)
    ensures Valid(s) <==> exists cps :: AllScalar(cps) && s == EncodedAll(cps)
  {
    if Valid(s) {
      var cps := Decoded(s);
    }
    if cps :| AllScalar(cps) && s == EncodedAll(cps) {
      EncodedIsValid(cps);
    }
  }

  lemma {:induction false} Decoded(s: seq<Byte>) returns (cps: seq<int>)
    requires Valid(s)
    ensures AllScalar(cps) && s == EncodedAll(cps)
  {
    cps := [];
    if s != [] {
      var n := Scan(s).0;
      var cp := ScanFinds(s);
      var rest := Decoded(s[n..]);
      cps := [cp] + rest;
      assert cps[1..] == rest;
      assert s == s[..n] + s[n..];
    }
  }

  lemma {:induction false} EncodedIsValid(cps: seq<int>)
    requires AllScalar(cps)
    ensures Valid(EncodedAll(cps))
  {
    if cps != [] {
      var first, rest := Encoded(cps[0]), EncodedAll(cps[1..]);
      EncodedIsValid(cps[1..]);
      ScanReads(cps[0], rest);
      assert (first + rest)[|first|..] == rest;
    }
  }
}
