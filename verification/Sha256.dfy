/** SHA-256: the definition of FIPS 180-4, and the in-place loops that compute it. */
module Sha256 {
  import opened Bytes
  import Text

  const U32: nat := 0x1_0000_0000
  const BLOCK: nat := 64

  // A 32-bit word, by its value.
  type Word = x: int | 0 <= x < U32

  // ---------------------------------------------------------------- constants (sections 4.2.2 and 5.3.3)

  // The first 32 bits `k` of the fractional part of a root of the prime `p`, the root's integer part being `q`.
  datatype Root = Root(k: Word, p: nat, q: nat)

  predicate CubeRoot(k: nat, p: nat, q: nat) {
    var c := q * U32 + k;
    c * c * c <= p * (U32 * U32 * U32) < (c + 1) * (c + 1) * (c + 1)
  }

  predicate SquareRoot(k: nat, p: nat, q: nat) {
    var c := q * U32 + k;
    c * c <= p * (U32 * U32) < (c + 1) * (c + 1)
  }

  type CubeConstant = r: Root | CubeRoot(r.k, r.p, r.q) witness Root(0x428a2f98, 2, 1)

  type SquareConstant = r: Root | SquareRoot(r.k, r.p, r.q) witness Root(0x6a09e667, 2, 1)

  const K0: seq<CubeConstant> := [
    Root(0x428a2f98, 2, 1), Root(0x71374491, 3, 1), Root(0xb5c0fbcf, 5, 1), Root(0xe9b5dba5, 7, 1),
    Root(0x3956c25b, 11, 2), Root(0x59f111f1, 13, 2), Root(0x923f82a4, 17, 2), Root(0xab1c5ed5, 19, 2),
    Root(0xd807aa98, 23, 2), Root(0x12835b01, 29, 3), Root(0x243185be, 31, 3), Root(0x550c7dc3, 37, 3),
    Root(0x72be5d74, 41, 3), Root(0x80deb1fe, 43, 3), Root(0x9bdc06a7, 47, 3), Root(0xc19bf174, 53, 3)]

  const K16: seq<CubeConstant> := [
    Root(0xe49b69c1, 59, 3), Root(0xefbe4786, 61, 3), Root(0x0fc19dc6, 67, 4), Root(0x240ca1cc, 71, 4),
    Root(0x2de92c6f, 73, 4), Root(0x4a7484aa, 79, 4), Root(0x5cb0a9dc, 83, 4), Root(0x76f988da, 89, 4),
    Root(0x983e5152, 97, 4), Root(0xa831c66d, 101, 4), Root(0xb00327c8, 103, 4), Root(0xbf597fc7, 107, 4),
    Root(0xc6e00bf3, 109, 4), Root(0xd5a79147, 113, 4), Root(0x06ca6351, 127, 5), Root(0x14292967, 131, 5)]

  const K32: seq<CubeConstant> := [
    Root(0x27b70a85, 137, 5), Root(0x2e1b2138, 139, 5), Root(0x4d2c6dfc, 149, 5), Root(0x53380d13, 151, 5),
    Root(0x650a7354, 157, 5), Root(0x766a0abb, 163, 5), Root(0x81c2c92e, 167, 5), Root(0x92722c85, 173, 5),
    Root(0xa2bfe8a1, 179, 5), Root(0xa81a664b, 181, 5), Root(0xc24b8b70, 191, 5), Root(0xc76c51a3, 193, 5),
    Root(0xd192e819, 197, 5), Root(0xd6990624, 199, 5), Root(0xf40e3585, 211, 5), Root(0x106aa070, 223, 6)]

  const K48: seq<CubeConstant> := [
    Root(0x19a4c116, 227, 6), Root(0x1e376c08, 229, 6), Root(0x2748774c, 233, 6), Root(0x34b0bcb5, 239, 6),
    Root(0x391c0cb3, 241, 6), Root(0x4ed8aa4a, 251, 6), Root(0x5b9cca4f, 257, 6), Root(0x682e6ff3, 263, 6),
    Root(0x748f82ee, 269, 6), Root(0x78a5636f, 271, 6), Root(0x84c87814, 277, 6), Root(0x8cc70208, 281, 6),
    Root(0x90befffa, 283, 6), Root(0xa4506ceb, 293, 6), Root(0xbef9a3f7, 307, 6), Root(0xc67178f2, 311, 6)]

  const H0: seq<SquareConstant> := [
    Root(0x6a09e667, 2, 1), Root(0xbb67ae85, 3, 1), Root(0x3c6ef372, 5, 2), Root(0xa54ff53a, 7, 2),
    Root(0x510e527f, 11, 3), Root(0x9b05688c, 13, 3), Root(0x1f83d9ab, 17, 4), Root(0x5be0cd19, 19, 4)]

  function RootAt(t: nat): CubeConstant
    requires t < 64
  {
    if t < 16 then K0[t] else if t < 32 then K16[t - 16] else if t < 48 then K32[t - 32] else K48[t - 48]
  }

  function K(t: nat): Word
    requires t < 64
  {
    RootAt(t).k
  }

  // ---------------------------------------------------------------- words

  function Pow2(n: nat): (p: nat)
    ensures p > 0
  {
    if n == 0 then 1 else 2 * Pow2(n - 1)
  }

  lemma Pow2Of32()
    ensures Pow2(32) == U32
  {
    assert Pow2(8) == 256;
    assert Pow2(16) == 0x1_0000 by { assert Pow2(12) == 0x1000; }
    assert Pow2(24) == 0x100_0000 by { assert Pow2(20) == 0x10_0000; }
    assert Pow2(28) == 0x1000_0000;
  }

  // wrapping_add
  function Add(x: Word, y: Word): Word { (x + y) % U32 }

  datatype Op = XorOp | AndOp

  function Bit(op: Op, x: nat, y: nat): nat {
    match op
    case XorOp => if x % 2 != y % 2 then 1 else 0
    case AndOp => if x % 2 == 1 && y % 2 == 1 then 1 else 0
  }

  // Combine two numbers bit by bit.
  function Bits(op: Op, x: nat, y: nat, n: nat): (r: nat)
    requires x < Pow2(n) && y < Pow2(n)
    ensures r < Pow2(n)
  {
    if n == 0 then 0 else 2 * Bits(op, x / 2, y / 2, n - 1) + Bit(op, x, y)
  }

  function Xor(x: Word, y: Word): Word { Pow2Of32(); Bits(XorOp, x, y, 32) }

  function And(x: Word, y: Word): Word { Pow2Of32(); Bits(AndOp, x, y, 32) }

  function Not(x: Word): Word { U32 - 1 - x }

  function Shr(x: Word, n: nat): Word
    decreases n, x
  {
    if n == 0 then x else Shr(x, n - 1) / 2
  }

  // rotate_right: n times, the lowest bit moves to the top.
  function Rotr(x: Word, n: nat): Word
    decreases n, x
  {
    if n == 0 then x else var y := Rotr(x, n - 1); y / 2 + y % 2 * 0x8000_0000
  }

  // ---------------------------------------------------------------- functions (section 4.1.2)

  function Ch(x: Word, y: Word, z: Word): Word { Xor(And(x, y), And(Not(x), z)) }

  function Maj(x: Word, y: Word, z: Word): Word { Xor(Xor(And(x, y), And(x, z)), And(y, z)) }

  function BigSigma0(x: Word): Word { Xor(Xor(Rotr(x, 2), Rotr(x, 13)), Rotr(x, 22)) }

  function BigSigma1(x: Word): Word { Xor(Xor(Rotr(x, 6), Rotr(x, 11)), Rotr(x, 25)) }

  function SmallSigma0(x: Word): Word { Xor(Xor(Rotr(x, 7), Rotr(x, 18)), Shr(x, 3)) }

  function SmallSigma1(x: Word): Word { Xor(Xor(Rotr(x, 17), Rotr(x, 19)), Shr(x, 10)) }

  // ---------------------------------------------------------------- padding (section 5.1.1)

  function Zeros(n: nat): (s: seq<Byte>)
    ensures |s| == n
  {
    seq(n, _ => 0)
  }

  // The least number of zero bytes that leaves eight bytes of the last block.
  function ZeroCount(length: nat): (n: nat)
    ensures n < BLOCK && (length + 1 + n) % BLOCK == 56
  {
    (119 - length % 64) % 64
  }

  /** No fewer zero bytes would do. */
  lemma ZeroCountIsLeast(length: nat, n: nat)
    requires n < ZeroCount(length)
    ensures (length + 1 + n) % BLOCK != 56
  {
    var q, r := length / 64, length % 64;
    var m := r + 1 + n;
    assert length + 1 + n == 64 * q + m;
    if r <= 55 {
      assert ZeroCount(length) == 55 - r;
      Remainder(q, m);
    } else {
      assert ZeroCount(length) == 119 - r;
      if m < 64 { Remainder(q, m); } else { Remainder(q + 1, m - 64); }
    }
  }

  lemma Remainder(q: nat, m: nat)
    requires m < 64
    ensures (64 * q + m) % 64 == m
  {
  }

  // A one bit, zeros, and the length in bits.
  function Pad(data: seq<Byte>): seq<Byte> {
    data + [0x80] + Zeros(ZeroCount(|data|)) + Be(8 * |data|, 8)
  }

  // ---------------------------------------------------------------- hash computation (section 6.2.2)

  datatype Regs = Regs(a: Word, b: Word, c: Word, d: Word, e: Word, f: Word, g: Word, h: Word)

  function BlockWord(block: seq<Byte>, t: nat): Word
    requires |block| == BLOCK && t < 16
  {
    WordFits(block[4 * t..4 * t + 4]);
    Num(block[4 * t..4 * t + 4])
  }

  lemma WordFits(s: seq<Byte>)
    requires |s| == 4
    ensures Num(s) < U32
  {
    assert Pow256(4) == 256 * 256 * 256 * 256;
  }

  // The schedule's recurrence.
  function Mix(w16: Word, w15: Word, w7: Word, w2: Word): Word {
    Add(Add(Add(SmallSigma1(w2), w7), SmallSigma0(w15)), w16)
  }

  // The message schedule's word after `ws`.
  function NextWord(block: seq<Byte>, ws: seq<Word>): Word
    requires |block| == BLOCK && |ws| < 64
  {
    var t := |ws|;
    if t < 16 then BlockWord(block, t) else Mix(ws[t - 16], ws[t - 15], ws[t - 7], ws[t - 2])
  }

  // The first n words of the message schedule.
  function Schedule(block: seq<Byte>, n: nat): (ws: seq<Word>)
    requires |block| == BLOCK && n <= 64
    ensures |ws| == n
  {
    if n == 0 then [] else Schedule(block, n - 1) + [NextWord(block, Schedule(block, n - 1))]
  }

  function Round(r: Regs, k: Word, w: Word): Regs {
    var t1 := Add(Add(Add(Add(r.h, BigSigma1(r.e)), Ch(r.e, r.f, r.g)), k), w);
    var t2 := Add(BigSigma0(r.a), Maj(r.a, r.b, r.c));
    Regs(Add(t1, t2), r.a, r.b, r.c, Add(r.d, t1), r.e, r.f, r.g)
  }

  function Rounds(r: Regs, ws: seq<Word>, t: nat): Regs
    requires |ws| == 64 && t <= 64
  {
    if t == 0 then r else Round(Rounds(r, ws, t - 1), K(t - 1), ws[t - 1])
  }

  function AddRegs(x: Regs, y: Regs): Regs {
    Regs(Add(x.a, y.a), Add(x.b, y.b), Add(x.c, y.c), Add(x.d, y.d),
         Add(x.e, y.e), Add(x.f, y.f), Add(x.g, y.g), Add(x.h, y.h))
  }

  function Compress(r: Regs, block: seq<Byte>): Regs
    requires |block| == BLOCK
  {
    AddRegs(Rounds(r, Schedule(block, 64), 64), r)
  }

  function Initial(): Regs {
    Regs(H0[0].k, H0[1].k, H0[2].k, H0[3].k, H0[4].k, H0[5].k, H0[6].k, H0[7].k)
  }

  function Block(message: seq<Byte>, i: nat): (b: seq<Byte>)
    requires BLOCK * (i + 1) <= |message|
    ensures |b| == BLOCK
  {
    message[BLOCK * i..BLOCK * (i + 1)]
  }

  // The state after n blocks.
  function HashBlocks(message: seq<Byte>, n: nat): Regs
    requires BLOCK * n <= |message|
  {
    if n == 0 then Initial() else Compress(HashBlocks(message, n - 1), Block(message, n - 1))
  }

  function Hash(data: seq<Byte>): Regs {
    HashBlocks(Pad(data), |Pad(data)| / BLOCK)
  }

  // ---------------------------------------------------------------- the loops

  method PadMessage(data: seq<Byte>) returns (message: seq<Byte>)
    requires |data| < 0x2000_0000_0000_0000
    ensures message == Pad(data)
  {
    message := data;
    var bitLength := |data| * 8;
    message := message + [0x80];
    ghost var n := 0;
    while |message| % 64 != 56
      invariant n <= ZeroCount(|data|) && message == data + [0x80] + Zeros(n)
      decreases ZeroCount(|data|) - n
    {
      message := message + [0];
      n := n + 1;
      assert message == data + [0x80] + Zeros(n);
    }
    if n < ZeroCount(|data|) { ZeroCountIsLeast(|data|, n); }
    message := message + Be(bitLength, 8);
  }

  lemma AddTwice(x: int, y: Word)
    requires x >= 0
    ensures Add(x % U32, y) == (x + y) % U32
  {
    assert x == x / U32 * U32 + x % U32;
  }

  // The order in which the code adds the four terms of the schedule.
  lemma SumOrder(a: Word, b: Word, c: Word, d: Word)
    ensures Add(Add(Add(a, b), c), d) == Add(Add(Add(d, c), b), a)
  {
    AddTwice(a + b, c);
    AddTwice(a + b + c, d);
    AddTwice(d + c, b);
    AddTwice(d + c + b, a);
  }

  method MixWord(w16: Word, w15: Word, w7: Word, w2: Word) returns (w: Word)
    ensures w == Mix(w16, w15, w7, w2)
  {
    var s0 := Xor(Xor(Rotr(w15, 7), Rotr(w15, 18)), Shr(w15, 3));
    var s1 := Xor(Xor(Rotr(w2, 17), Rotr(w2, 19)), Shr(w2, 10));
    SumOrder(w16, s0, w7, s1);
    w := Add(Add(Add(w16, s0), w7), s1);
  }

  method LoadBlock(block: seq<Byte>, w: array<Word>)
    requires |block| == BLOCK && w.Length == 64
    modifies w
    ensures w[..16] == Schedule(block, 16)
  {
    for index := 0 to 16
      invariant w[..index] == Schedule(block, index)
    {
      w[index] := BlockWord(block, index);
    }
  }

  method FillSchedule(block: seq<Byte>, w: array<Word>)
    requires |block| == BLOCK && w.Length == 64
    modifies w
    ensures w[..] == Schedule(block, 64)
  {
    LoadBlock(block, w);
    for index := 16 to 64
      invariant w[..index] == Schedule(block, index)
    {
      var word := MixWord(w[index - 16], w[index - 15], w[index - 7], w[index - 2]);
      w[index] := word;
    }
  }

  function RegsOf(s: seq<Word>): Regs
    requires |s| == 8
  {
    Regs(s[0], s[1], s[2], s[3], s[4], s[5], s[6], s[7])
  }

  // One round on the eight variables.
  method Turn(r: Regs, k: Word, w: Word) returns (r': Regs)
    ensures r' == Round(r, k, w)
  {
    var Regs(a, b, c, d, e, f, g, h) := r;
    var s1 := Xor(Xor(Rotr(e, 6), Rotr(e, 11)), Rotr(e, 25));
    var ch := Xor(And(e, f), And(Not(e), g));
    var temp1 := Add(Add(Add(Add(h, s1), ch), k), w);
    var s0 := Xor(Xor(Rotr(a, 2), Rotr(a, 13)), Rotr(a, 22));
    var maj := Xor(Xor(And(a, b), And(a, c)), And(b, c));
    var temp2 := Add(s0, maj);
    h := g;
    g := f;
    f := e;
    e := Add(d, temp1);
    d := c;
    c := b;
    b := a;
    a := Add(temp1, temp2);
    r' := Regs(a, b, c, d, e, f, g, h);
  }

  method CompressInPlace(state: array<Word>, w: array<Word>)
    requires state.Length == 8 && w.Length == 64 && state != w
    modifies state
    ensures RegsOf(state[..]) == AddRegs(Rounds(RegsOf(old(state[..])), w[..], 64), RegsOf(old(state[..])))
  {
    var r := RegsOf(state[..]);
    ghost var first := r;
    for index := 0 to 64
      invariant r == Rounds(first, w[..], index)
      invariant w[..] == old(w[..]) && state[..] == old(state[..])
    {
      r := Turn(r, K(index), w[index]);
    }
    AddInPlace(state, r);
  }

  // One round of the loop over the blocks.
  method CompressBlock(block: seq<Byte>, state: array<Word>, w: array<Word>)
    requires |block| == BLOCK && state.Length == 8 && w.Length == 64 && state != w
    modifies state, w
    ensures RegsOf(state[..]) == Compress(RegsOf(old(state[..])), block)
  {
    FillSchedule(block, w);
    CompressInPlace(state, w);
  }

  method AddInPlace(state: array<Word>, r: Regs)
    requires state.Length == 8
    modifies state
    ensures RegsOf(state[..]) == AddRegs(r, RegsOf(old(state[..])))
  {
    state[0] := Add(state[0], r.a);
    state[1] := Add(state[1], r.b);
    state[2] := Add(state[2], r.c);
    state[3] := Add(state[3], r.d);
    state[4] := Add(state[4], r.e);
    state[5] := Add(state[5], r.f);
    state[6] := Add(state[6], r.g);
    state[7] := Add(state[7], r.h);
  }

  // ---------------------------------------------------------------- hexadecimal

  function HexOf(n: nat, width: nat): (s: string)
    ensures |s| == width
  {
    if width == 0 then "" else HexOf(n / 16, width - 1) + [Text.HexDigit(n % 16)]
  }

  // Each word as {:08x}.
  function HexAll(ws: seq<Word>): (s: string)
    ensures |s| == 8 * |ws|
  {
    if ws == [] then "" else HexOf(ws[0], 8) + HexAll(ws[1..])
  }

  function Hex(r: Regs): (s: string)
    ensures |s| == 64
  {
    HexAll([r.a, r.b, r.c, r.d, r.e, r.f, r.g, r.h])
  }

  /** sha256_hex: for every message shorter than 2^61 bytes, the digest the standard defines. */
  method Sha256Hex(data: seq<Byte>) returns (hex: string)
    requires |data| < 0x2000_0000_0000_0000
    ensures hex == Hex(Hash(data))
  {
    var state := new Word[8](i requires 0 <= i < 8 => H0[i].k);
    var message := PadMessage(data);
    PadIsAligned(data);
    var w := new Word[64];
    var n := |message| / BLOCK;
    for i := 0 to n
      invariant RegsOf(state[..]) == HashBlocks(message, i)
    {
      CompressBlock(Block(message, i), state, w);
    }
    hex := Hex(RegsOf(state[..]));
  }

  // ---------------------------------------------------------------- properties of the padding

  /** The padded message is whole blocks, and no more of them than the message, its end mark and length need. */
  lemma PadIsAligned(data: seq<Byte>)
    ensures |Pad(data)| % BLOCK == 0
    ensures |data| + 9 <= |Pad(data)| < |data| + 9 + BLOCK
  {
    var n := |data| + 1 + ZeroCount(|data|);
    assert |Pad(data)| == n + 8;
    NextBlock(n);
  }

  lemma NextBlock(n: nat)
    requires n % BLOCK == 56
    ensures (n + 8) % BLOCK == 0
  {
  }

  /** Different messages are padded differently. */
  lemma PadInjective(x: seq<Byte>, y: seq<Byte>)
    requires |x| < 0x2000_0000_0000_0000 && |y| < 0x2000_0000_0000_0000 && Pad(x) == Pad(y)
    ensures x == y
  {
    var p := Pad(x);
    assert p[|p| - 8..] == Be(8 * |x|, 8) && Pad(y)[|p| - 8..] == Be(8 * |y|, 8);
    assert Pow256(8) == 0x1_0000_0000_0000_0000 by { assert Pow256(4) == 0x1_0000_0000; }
    NumBe(8 * |x|, 8);
    NumBe(8 * |y|, 8);
    assert x == p[..|x|] && y == Pad(y)[..|y|];
  }

  // ---------------------------------------------------------------- the definitions against the standard's wording

  lemma {:induction false} Pow2Add(m: nat, n: nat)
    ensures Pow2(m + n) == Pow2(m) * Pow2(n)
  {
    if m > 0 {
      Pow2Add(m - 1, n);
      MulAssoc(2, Pow2(m - 1), Pow2(n));
    }
  }

  lemma MulAssoc(x: nat, y: nat, z: nat)
    ensures x * (y * z) == x * y * z
  {
  }

  lemma Halve(x: nat, p: nat)
    requires p > 0
    ensures x / p / 2 == x / (2 * p) && x % (2 * p) == x % p + x / p % 2 * p
  {
    var h := x / p;
    var q, b := h / 2, h % 2;
    assert x == h * p + x % p;
    assert h == 2 * q + b;
    Distribute(q, b, p);
    var low := b * p + x % p;
    assert low < 2 * p by {
      if b == 0 { assert b * p == 0; } else { assert b * p == p; }
    }
    Quotient(x, 2 * p, q, low);
  }

  lemma Distribute(q: nat, b: nat, p: nat)
    ensures (2 * q + b) * p == q * (2 * p) + b * p
  {
  }

  lemma Quotient(x: nat, m: nat, q: nat, r: nat)
    requires m > 0 && r < m && x == q * m + r
    ensures x / m == q && x % m == r
  {
    var d := x / m - q;
    assert d * m == r - x % m by { assert d * m == x / m * m - q * m; }
    assert d < 1 by { if d >= 1 { MulMono(1, d, m); } }
    assert d > -1 by { if d <= -1 { MulMono(d, -1, m); } }
  }

  lemma MulMono(x: int, y: int, m: nat)
    requires x <= y
    ensures x * m <= y * m
  {
  }

  // Bit i of a number, counted from the lowest.
  predicate NthBit(x: nat, i: nat) {
    if i == 0 then x % 2 == 1 else NthBit(x / 2, i - 1)
  }

  /** XOR and AND act on each bit. */
  lemma {:induction false} BitsActBitwise(op: Op, x: nat, y: nat, n: nat, i: nat)
    requires x < Pow2(n) && y < Pow2(n) && i < n
    ensures NthBit(Bits(op, x, y, n), i)
            <==> if op.XorOp? then NthBit(x, i) != NthBit(y, i) else NthBit(x, i) && NthBit(y, i)
  {
    var high := Bits(op, x / 2, y / 2, n - 1);
    assert Bits(op, x, y, n) / 2 == high && Bits(op, x, y, n) % 2 == Bit(op, x, y);
    if i > 0 { BitsActBitwise(op, x / 2, y / 2, n - 1, i - 1); }
  }

  lemma {:induction false} NotFlips(x: nat, n: nat, i: nat)
    requires x < Pow2(n) && i < n
    ensures NthBit(Pow2(n) - 1 - x, i) <==> !NthBit(x, i)
    decreases n
  {
    var p := Pow2(n - 1);
    assert (2 * p - 1 - x) / 2 == p - 1 - x / 2 && (2 * p - 1 - x) % 2 == 1 - x % 2;
    if i > 0 { NotFlips(x / 2, n - 1, i - 1); }
  }

  /** The three word operations are the standard's bitwise ones. */
  lemma WordOperations(x: Word, y: Word, i: nat)
    requires i < 32
    ensures NthBit(Xor(x, y), i) <==> NthBit(x, i) != NthBit(y, i)
    ensures NthBit(And(x, y), i) <==> NthBit(x, i) && NthBit(y, i)
    ensures NthBit(Not(x), i) <==> !NthBit(x, i)
  {
    Pow2Of32();
    BitsActBitwise(XorOp, x, y, 32, i);
    BitsActBitwise(AndOp, x, y, 32, i);
    NotFlips(x, 32, i);
  }

  lemma {:induction false} ShrShifts(x: Word, n: nat)
    ensures Shr(x, n) == x / Pow2(n)
  {
    if n > 0 {
      ShrShifts(x, n - 1);
      Halve(x, Pow2(n - 1));
    }
  }

  lemma RotateOnce(x: nat, p: nat, q: nat, y: nat)
    requires p > 0 && p * q == 0x8000_0000 && y == x / p + x % p * (2 * q)
    ensures y / 2 + y % 2 * 0x8000_0000 == x / (2 * p) + x % (2 * p) * q
  {
    var h, l, b := x / p, x % p, x / p % 2;
    Halve(x, p);
    var lq := l * q;
    assert l * (2 * q) == 2 * lq;
    assert y / 2 == h / 2 + lq && y % 2 == b;
    assert (l + b * p) * q == lq + b * (p * q) by {
      assert (l + b * p) * q == l * q + b * p * q;
      assert b * p * q == b * (p * q);
    }
  }

  /** ROTR: the high bits shift down by n, the low n bits up by 32 - n. */
  lemma {:induction false} RotrRotates(x: Word, n: nat)
    requires n <= 32
    ensures Rotr(x, n) == x / Pow2(n) + x % Pow2(n) * Pow2(32 - n)
  {
    if n == 0 {
      assert x % 1 == 0;
    } else {
      RotrRotates(x, n - 1);
      var p, q := Pow2(n - 1), Pow2(32 - n);
      assert p * q == 0x8000_0000 by {
        Pow2Add(n - 1, 32 - n);
        Pow2Of32();
        assert Pow2(32) == 2 * Pow2(31);
      }
      assert Pow2(33 - n) == 2 * q;
      RotateOnce(x, p, q, Rotr(x, n - 1));
    }
  }

  /** The schedule satisfies the standard's equations. */
  lemma {:induction false} ScheduleEquations(block: seq<Byte>, n: nat, t: nat)
    requires |block| == BLOCK && t < n <= 64
    ensures var ws := Schedule(block, n);
      ws[t] == if t < 16 then BlockWord(block, t) else Mix(ws[t - 16], ws[t - 15], ws[t - 7], ws[t - 2])
    decreases n
  {
    if t < n - 1 { ScheduleEquations(block, n - 1, t); }
  }

  // ---------------------------------------------------------------- the digest text

  function Pow16(width: nat): (p: nat)
    ensures p > 0
  {
    if width == 0 then 1 else 16 * Pow16(width - 1)
  }

  lemma {:induction false} HexOfInjective(m: nat, n: nat, width: nat)
    requires m < Pow16(width) && n < Pow16(width) && HexOf(m, width) == HexOf(n, width)
    ensures m == n
  {
    if width > 0 {
      var s, t := HexOf(m, width), HexOf(n, width);
      assert s[..width - 1] == HexOf(m / 16, width - 1) && t[..width - 1] == HexOf(n / 16, width - 1);
      assert s[width - 1] == Text.HexDigit(m % 16) && t[width - 1] == Text.HexDigit(n % 16);
      HexOfInjective(m / 16, n / 16, width - 1);
    }
  }

  lemma HexWord(x: Word, y: Word, s: string, t: string)
    requires HexOf(x, 8) + s == HexOf(y, 8) + t
    ensures x == y && s == t
  {
    assert (HexOf(x, 8) + s)[..8] == HexOf(x, 8) && (HexOf(y, 8) + t)[..8] == HexOf(y, 8);
    assert (HexOf(x, 8) + s)[8..] == s && (HexOf(y, 8) + t)[8..] == t;
    assert Pow16(8) == U32;
    HexOfInjective(x, y, 8);
  }

  lemma {:induction false} HexAllInjective(xs: seq<Word>, ys: seq<Word>)
    requires |xs| == |ys| && HexAll(xs) == HexAll(ys)
    ensures xs == ys
  {
    if xs != [] {
      HexWord(xs[0], ys[0], HexAll(xs[1..]), HexAll(ys[1..]));
      HexAllInjective(xs[1..], ys[1..]);
      assert xs == [xs[0]] + xs[1..] && ys == [ys[0]] + ys[1..];
    }
  }

  /** The digest text determines the eight words. */
  lemma HexInjective(r: Regs, q: Regs)
    requires Hex(r) == Hex(q)
    ensures r == q
  {
    var xs, ys := [r.a, r.b, r.c, r.d, r.e, r.f, r.g, r.h], [q.a, q.b, q.c, q.d, q.e, q.f, q.g, q.h];
    HexAllInjective(xs, ys);
    assert xs[0] == ys[0] && xs[1] == ys[1] && xs[2] == ys[2] && xs[3] == ys[3];
    assert xs[4] == ys[4] && xs[5] == ys[5] && xs[6] == ys[6] && xs[7] == ys[7];
  }
}
