/** The six functions of section 4.1.2 of FIPS 180-4 bit by bit, and the rounds as a permutation of the state. */
module Sha256Bits {
  import opened Sha256

  // ---------------------------------------------------------------- shifts and rotations

  lemma {:induction false} HighBits(x: nat, n: nat, i: nat)
    requires x < Pow2(n) && n <= i
    ensures !NthBit(x, i)
    decreases n
  {
    if n == 0 {
      ZeroBits(i);
    } else {
      HighBits(x / 2, n - 1, i - 1);
    }
  }

  lemma AboveWord(x: Word, i: nat)
    requires i >= 32
    ensures !NthBit(x, i)
  {
    Pow2Of32();
    HighBits(x, 32, i);
  }

  lemma {:induction false} ZeroBits(i: nat)
    ensures !NthBit(0, i)
  {
    if i > 0 { ZeroBits(i - 1); }
  }

  /** SHR moves bit i + n to i. */
  lemma {:induction false} ShrBit(x: Word, n: nat, i: nat)
    ensures NthBit(Shr(x, n), i) <==> NthBit(x, i + n)
  {
    if n > 0 { ShrBit(x, n - 1, i + 1); }
  }

  lemma {:induction false} TopBit(y: nat, b: nat, n: nat, i: nat)
    requires y < Pow2(n) && b < 2 && i <= n
    ensures NthBit(y + b * Pow2(n), i) <==> if i < n then NthBit(y, i) else b == 1
    decreases n
  {
    if n > 0 {
      var p := Pow2(n - 1);
      assert b * (2 * p) == 2 * (b * p);
      assert (y + b * (2 * p)) / 2 == y / 2 + b * p && (y + b * (2 * p)) % 2 == y % 2;
      if i > 0 { TopBit(y / 2, b, n - 1, i - 1); }
    }
  }

  /** ROTR moves bit i + n, counted around, to i. */
  lemma {:induction false} RotrBit(x: Word, n: nat, i: nat)
    requires i < 32
    ensures NthBit(Rotr(x, n), i) <==> NthBit(x, (i + n) % 32)
  {
    if n > 0 {
      var y := Rotr(x, n - 1);
      Pow2Of32();
      assert Pow2(32) == 2 * Pow2(31);
      TopBit(y / 2, y % 2, 31, i);
      if i < 31 {
        assert NthBit(y / 2, i) == NthBit(y, i + 1);
        RotrBit(x, n - 1, i + 1);
      } else {
        RotrBit(x, n - 1, 0);
        assert (31 + n) % 32 == (n - 1) % 32;
      }
    }
  }

  // ---------------------------------------------------------------- the six functions

  function Ones(a: bool, b: bool, c: bool): nat {
    (if a then 1 else 0) + (if b then 1 else 0) + if c then 1 else 0
  }

  /** Ch chooses between two words by the bits of a third; Maj takes the majority of three. */
  lemma ChooseAndMajority(x: Word, y: Word, z: Word, i: nat)
    requires i < 32
    ensures NthBit(Ch(x, y, z), i) <==> if NthBit(x, i) then NthBit(y, i) else NthBit(z, i)
    ensures NthBit(Maj(x, y, z), i) <==> Ones(NthBit(x, i), NthBit(y, i), NthBit(z, i)) >= 2
  {
    WordOperations(x, y, i);
    WordOperations(x, z, i);
    WordOperations(y, z, i);
    WordOperations(Not(x), z, i);
    WordOperations(And(x, y), And(Not(x), z), i);
    WordOperations(And(x, y), And(x, z), i);
    WordOperations(Xor(And(x, y), And(x, z)), And(y, z), i);
  }

  lemma XorOfThree(x: Word, y: Word, z: Word, i: nat)
    requires i < 32
    ensures NthBit(Xor(Xor(x, y), z), i) <==> Ones(NthBit(x, i), NthBit(y, i), NthBit(z, i)) % 2 == 1
  {
    WordOperations(x, y, i);
    WordOperations(Xor(x, y), z, i);
  }

  lemma SumOfRotations(x: Word, a: nat, b: nat, c: nat, i: nat)
    requires i < 32
    ensures NthBit(Xor(Xor(Rotr(x, a), Rotr(x, b)), Rotr(x, c)), i) <==>
            Ones(NthBit(x, (i + a) % 32), NthBit(x, (i + b) % 32), NthBit(x, (i + c) % 32)) % 2 == 1
  {
    RotrBit(x, a, i);
    RotrBit(x, b, i);
    RotrBit(x, c, i);
    XorOfThree(Rotr(x, a), Rotr(x, b), Rotr(x, c), i);
  }

  lemma SumWithShift(x: Word, a: nat, b: nat, c: nat, i: nat)
    requires i < 32
    ensures NthBit(Xor(Xor(Rotr(x, a), Rotr(x, b)), Shr(x, c)), i) <==>
            Ones(NthBit(x, (i + a) % 32), NthBit(x, (i + b) % 32), i + c < 32 && NthBit(x, i + c)) % 2 == 1
  {
    if i + c >= 32 { AboveWord(x, i + c); }
    RotrBit(x, a, i);
    RotrBit(x, b, i);
    ShrBit(x, c, i);
    XorOfThree(Rotr(x, a), Rotr(x, b), Shr(x, c), i);
  }

  /** Each big sigma is, in every bit, the parity of three bits of the word, counted around. */
  lemma BigSigmas(x: Word, i: nat)
    requires i < 32
    ensures NthBit(BigSigma0(x), i) <==>
            Ones(NthBit(x, (i + 2) % 32), NthBit(x, (i + 13) % 32), NthBit(x, (i + 22) % 32)) % 2 == 1
    ensures NthBit(BigSigma1(x), i) <==>
            Ones(NthBit(x, (i + 6) % 32), NthBit(x, (i + 11) % 32), NthBit(x, (i + 25) % 32)) % 2 == 1
  {
    SumOfRotations(x, 2, 13, 22, i);
    SumOfRotations(x, 6, 11, 25, i);
  }

  /** In the small ones the third bit comes from above, where it exists. */
  lemma SmallSigmas(x: Word, i: nat)
    requires i < 32
    ensures NthBit(SmallSigma0(x), i) <==>
            Ones(NthBit(x, (i + 7) % 32), NthBit(x, (i + 18) % 32), i + 3 < 32 && NthBit(x, i + 3)) % 2 == 1
    ensures NthBit(SmallSigma1(x), i) <==>
            Ones(NthBit(x, (i + 17) % 32), NthBit(x, (i + 19) % 32), i + 10 < 32 && NthBit(x, i + 10)) % 2 == 1
  {
    SumWithShift(x, 7, 18, 3, i);
    SumWithShift(x, 17, 19, 10, i);
  }

  // ---------------------------------------------------------------- the rounds can be undone

  function Sub(x: Word, y: Word): Word { (x - y) % U32 }

  lemma AddSub(x: Word, y: Word)
    ensures Sub(Add(x, y), y) == x && Add(Sub(x, y), y) == x && Sub(Add(y, x), y) == x && Add(y, Sub(x, y)) == x
  {
  }

  // The state a round came from.
  function Unround(r: Regs, k: Word, w: Word): Regs {
    var t2 := Add(BigSigma0(r.b), Maj(r.b, r.c, r.d));
    var t1 := Sub(r.a, t2);
    var h := Sub(Sub(Sub(Sub(t1, w), k), Ch(r.f, r.g, r.h)), BigSigma1(r.f));
    Regs(r.b, r.c, r.d, Sub(r.e, t1), r.f, r.g, r.h, h)
  }

  /** For any round constant and message word, a round is a permutation of the states. */
  lemma RoundUndone(r: Regs, k: Word, w: Word)
    ensures Unround(Round(r, k, w), k, w) == r
    ensures Round(Unround(r, k, w), k, w) == r
  {
    RoundThenBack(r, k, w, BigSigma1(r.e), Ch(r.e, r.f, r.g), Add(BigSigma0(r.a), Maj(r.a, r.b, r.c)));
    BackThenRound(r, k, w, BigSigma1(r.f), Ch(r.f, r.g, r.h), Add(BigSigma0(r.b), Maj(r.b, r.c, r.d)));
  }

  lemma RoundThenBack(r: Regs, k: Word, w: Word, s1: Word, ch: Word, t2: Word)
    ensures var t1 := Add(Add(Add(Add(r.h, s1), ch), k), w);
      && Sub(Add(t1, t2), t2) == t1 && Sub(Add(r.d, t1), t1) == r.d
      && Sub(Sub(Sub(Sub(t1, w), k), ch), s1) == r.h
  {
    var one := Add(r.h, s1);
    var two := Add(one, ch);
    var three := Add(two, k);
    var t1 := Add(three, w);
    AddSub(r.h, s1);
    AddSub(one, ch);
    AddSub(two, k);
    AddSub(three, w);
    AddSub(t1, t2);
    AddSub(r.d, t1);
  }

  lemma BackThenRound(r: Regs, k: Word, w: Word, s1: Word, ch: Word, t2: Word)
    ensures var t1 := Sub(r.a, t2);
      var h := Sub(Sub(Sub(Sub(t1, w), k), ch), s1);
      && Add(Add(Add(Add(h, s1), ch), k), w) == t1 && Add(t1, t2) == r.a && Add(Sub(r.e, t1), t1) == r.e
  {
    var t1 := Sub(r.a, t2);
    AddSub(r.a, t2);
    AddSub(r.e, t1);
    AddSub(t1, w);
    AddSub(Sub(t1, w), k);
    AddSub(Sub(Sub(t1, w), k), ch);
    AddSub(Sub(Sub(Sub(t1, w), k), ch), s1);
  }

  // The state that rounds n to t came from.
  function Unrounds(r: Regs, ws: seq<Word>, t: nat, n: nat): Regs
    requires |ws| == 64 && n <= t <= 64
    decreases t - n, ws
  {
    if n == t then r else Unround(Unrounds(r, ws, t, n + 1), K(n), ws[n])
  }

  lemma {:induction false} UnroundsBack(r: Regs, ws: seq<Word>, t: nat, n: nat)
    requires |ws| == 64 && n <= t <= 64
    ensures Unrounds(Rounds(r, ws, t), ws, t, n) == Rounds(r, ws, n)
    decreases t - n, ws
  {
    if n < t {
      UnroundsBack(r, ws, t, n + 1);
      RoundUndone(Rounds(r, ws, n), K(n), ws[n]);
    }
  }

  lemma {:induction false} UnroundsForth(r: Regs, ws: seq<Word>, t: nat, n: nat)
    requires |ws| == 64 && n <= t <= 64
    ensures Rounds(Unrounds(r, ws, t, 0), ws, n) == Unrounds(r, ws, t, n)
    decreases n, ws
  {
    if n > 0 {
      UnroundsForth(r, ws, t, n - 1);
      RoundUndone(Unrounds(r, ws, t, n), K(n - 1), ws[n - 1]);
    }
  }

  /** And so are the 64 rounds of a block, for any message schedule. */
  lemma RoundsUndone(r: Regs, ws: seq<Word>)
    requires |ws| == 64
    ensures Unrounds(Rounds(r, ws, 64), ws, 64, 0) == r
    ensures Rounds(Unrounds(r, ws, 64, 0), ws, 64) == r
  {
    UnroundsBack(r, ws, 64, 0);
    UnroundsForth(r, ws, 64, 64);
  }
}
