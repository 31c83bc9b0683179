/** Where SHA-256's constants come from. */
module Sha256Constants {
  import opened Sha256
  import Primes

  ghost predicate SameTable(roots: seq<Root>, from: nat, steps: seq<Primes.Step>) {
    && from + 8 <= |roots| && |steps| == 8
    && roots[from].p == steps[0].p && roots[from + 1].p == steps[1].p && roots[from + 2].p == steps[2].p
    && roots[from + 3].p == steps[3].p && roots[from + 4].p == steps[4].p && roots[from + 5].p == steps[5].p
    && roots[from + 6].p == steps[6].p && roots[from + 7].p == steps[7].p
  }

  lemma SameAt(roots: seq<Root>, from: nat, steps: seq<Primes.Step>, i: nat)
    requires SameTable(roots, from, steps) && i < 8
    ensures roots[from + i].p == steps[i].p
  {
  }

  lemma FirstSame()
    ensures SameTable(K0, 0, Primes.STEPS_0)
  {
  }

  lemma FirstAgree(i: nat)
    requires i < 8
    ensures K0[i].p == Primes.STEPS_0[i].p
  {
    FirstSame();
    SameAt(K0, 0, Primes.STEPS_0, i);
  }

  lemma SecondSame()
    ensures SameTable(K0, 8, Primes.STEPS_1)
  {
  }

  lemma SecondAgree(i: nat)
    requires i < 8
    ensures K0[8 + i].p == Primes.STEPS_1[i].p
  {
    SecondSame();
    SameAt(K0, 8, Primes.STEPS_1, i);
  }

  lemma ThirdSame()
    ensures SameTable(K16, 0, Primes.STEPS_2)
  {
  }

  lemma ThirdAgree(i: nat)
    requires i < 8
    ensures K16[i].p == Primes.STEPS_2[i].p
  {
    ThirdSame();
    SameAt(K16, 0, Primes.STEPS_2, i);
  }

  lemma FourthSame()
    ensures SameTable(K16, 8, Primes.STEPS_3)
  {
  }

  lemma FourthAgree(i: nat)
    requires i < 8
    ensures K16[8 + i].p == Primes.STEPS_3[i].p
  {
    FourthSame();
    SameAt(K16, 8, Primes.STEPS_3, i);
  }

  lemma FifthSame()
    ensures SameTable(K32, 0, Primes.STEPS_4)
  {
  }

  lemma FifthAgree(i: nat)
    requires i < 8
    ensures K32[i].p == Primes.STEPS_4[i].p
  {
    FifthSame();
    SameAt(K32, 0, Primes.STEPS_4, i);
  }

  lemma SixthSame()
    ensures SameTable(K32, 8, Primes.STEPS_5)
  {
  }

  lemma SixthAgree(i: nat)
    requires i < 8
    ensures K32[8 + i].p == Primes.STEPS_5[i].p
  {
    SixthSame();
    SameAt(K32, 8, Primes.STEPS_5, i);
  }

  lemma SeventhSame()
    ensures SameTable(K48, 0, Primes.STEPS_6)
  {
  }

  lemma SeventhAgree(i: nat)
    requires i < 8
    ensures K48[i].p == Primes.STEPS_6[i].p
  {
    SeventhSame();
    SameAt(K48, 0, Primes.STEPS_6, i);
  }

  lemma EighthSame()
    ensures SameTable(K48, 8, Primes.STEPS_7)
  {
  }

  lemma EighthAgree(i: nat)
    requires i < 8
    ensures K48[8 + i].p == Primes.STEPS_7[i].p
  {
    EighthSame();
    SameAt(K48, 8, Primes.STEPS_7, i);
  }

  lemma TablesAgree(t: nat)
    requires t < 64
    ensures RootAt(t).p == Primes.PrimeAt(t)
  {
    if t < 8 { FirstAgree(t); }
    else if t < 16 { SecondAgree(t - 8); }
    else if t < 24 { ThirdAgree(t - 16); }
    else if t < 32 { FourthAgree(t - 24); }
    else if t < 40 { FifthAgree(t - 32); }
    else if t < 48 { SixthAgree(t - 40); }
    else if t < 56 { SeventhAgree(t - 48); }
    else { EighthAgree(t - 56); }
  }

  /** The round constants are the first fractional bits of the cube roots, the initial values of the square
      roots, of the numbers of the table of primes (sections 4.2.2 and 5.3.3). */
  lemma ConstantsAreRoots(t: nat)
    requires t < 64
    ensures CubeRoot(K(t), RootAt(t).p, RootAt(t).q) && RootAt(t).p == Primes.PrimeAt(t)
    ensures t < 8 ==> SquareRoot(H0[t].k, H0[t].p, H0[t].q) && H0[t].p == RootAt(t).p
  {
    TablesAgree(t);
    var r: CubeConstant := RootAt(t);
    if t < 8 {
      var h: SquareConstant := H0[t];
    }
  }

  /** The eight variables start with the square roots of the first eight primes, a with that of 2. */
  lemma StartsWithRoots()
    ensures var r := Initial();
      && SquareRoot(r.a, 2, 1) && SquareRoot(r.b, 3, 1) && SquareRoot(r.c, 5, 2) && SquareRoot(r.d, 7, 2)
      && SquareRoot(r.e, 11, 3) && SquareRoot(r.f, 13, 3) && SquareRoot(r.g, 17, 4) && SquareRoot(r.h, 19, 4)
  {
    forall t: nat | t < 8 ensures SquareRoot(H0[t].k, H0[t].p, H0[t].q) { ConstantsAreRoots(t); }
  }

  /** Those numbers are the first 64 primes, in order. */
  lemma ConstantsAreOfFirstPrimes(t: nat, n: int)
    requires t < 64
    ensures Primes.IsPrime(RootAt(t).p)
    ensures Primes.IsPrime(n) && n < RootAt(t).p ==> exists s: nat | s < t :: Primes.PrimeAt(s) == n
  {
    TablesAgree(t);
    Primes.FirstPrimes(t, n);
  }
}
