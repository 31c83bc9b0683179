/** The first 64 primes, each shown to be prime and to follow the one before it. */
module Primes {

  ghost predicate IsPrime(n: int) { n >= 2 && forall a, b | 2 <= a && 2 <= b :: a * b != n }

  // Trial division, enough below 18 * 18.
  predicate Passes(n: int) {
    && (n % 2 != 0 || n == 2) && (n % 3 != 0 || n == 3) && (n % 5 != 0 || n == 5) && (n % 7 != 0 || n == 7)
    && (n % 11 != 0 || n == 11) && (n % 13 != 0 || n == 13) && (n % 17 != 0 || n == 17)
  }

  lemma FactorFails(n: int, a: int, b: int)
    requires 2 <= a <= 17 && 2 <= b && a * b == n
    ensures !Passes(n)
  {
    if a % 2 == 0 {
      Regroup(2, a / 2, b);
      Multiple(n, 2, a / 2 * b);
    } else if a % 3 == 0 {
      Regroup(3, a / 3, b);
      Multiple(n, 3, a / 3 * b);
    } else {
      assert a in {5, 7, 11, 13, 17};
      Multiple(n, a, b);
    }
  }

  lemma Regroup(q: int, c: int, b: int)
    ensures q * c * b == q * (c * b)
    ensures c >= 1 && b >= 2 ==> c * b >= 2
  {
    if c >= 1 && b >= 2 { assert (c - 1) * b >= 0; }
  }

  lemma Multiple(n: int, q: int, m: int)
    requires n == q * m && m >= 2 && q in {2, 3, 5, 7, 11, 13, 17}
    ensures !Passes(n)
  {
    NoRemainder(q, m);
    assert (m - 1) * q > 0;
  }

  lemma NoRemainder(q: int, m: int)
    requires q > 0
    ensures (q * m) % q == 0
  {
    var d, r := m - (q * m) / q, (q * m) % q;
    assert q * d == r by { assert q * m == q * ((q * m) / q) + r; }
  }

  lemma BigProduct(a: int, b: int)
    requires a >= 18 && b >= 18
    ensures a * b >= 324
  {
    assert (a - 18) * b >= 0;
  }

  lemma PassesMeansPrime(n: int)
    requires 2 <= n < 324 && Passes(n)
    ensures IsPrime(n)
  {
    forall a, b | 2 <= a && 2 <= b ensures a * b != n {
      if a * b == n {
        if a <= 17 {
          FactorFails(n, a, b);
        } else if b <= 17 {
          assert b * a == n;
          FactorFails(n, b, a);
        } else {
          BigProduct(a, b);
        }
      }
    }
  }

  lemma PrimePasses(n: int)
    requires IsPrime(n)
    ensures Passes(n)
  {
    if n % 2 == 0 { assert 2 * (n / 2) == n; }
    if n % 3 == 0 { assert 3 * (n / 3) == n; }
    if n % 5 == 0 { assert 5 * (n / 5) == n; }
    if n % 7 == 0 { assert 7 * (n / 7) == n; }
    if n % 11 == 0 { assert 11 * (n / 11) == n; }
    if n % 13 == 0 { assert 13 * (n / 13) == n; }
    if n % 17 == 0 { assert 17 * (n / 17) == n; }
  }

  // ---------------------------------------------------------------- the table

  predicate Skips(p: int, n: int, next: int) { p + n < next ==> !Passes(p + n) }

  // `next` is the first number above p that passes; no gap is longer than 14 here.
  predicate Adjacent(p: int, next: int) {
    && p < next <= p + 14 && Passes(next)
    && Skips(p, 1, next) && Skips(p, 2, next) && Skips(p, 3, next) && Skips(p, 4, next) && Skips(p, 5, next)
    && Skips(p, 6, next) && Skips(p, 7, next) && Skips(p, 8, next) && Skips(p, 9, next) && Skips(p, 10, next)
    && Skips(p, 11, next) && Skips(p, 12, next) && Skips(p, 13, next)
  }

  datatype Step = Step(p: int, next: int)

  type PrimeStep = s: Step | Adjacent(s.p, s.next) witness Step(2, 3)

  const STEPS_0: seq<PrimeStep> := [
    Step(2, 3), Step(3, 5), Step(5, 7), Step(7, 11),
    Step(11, 13), Step(13, 17), Step(17, 19), Step(19, 23)]

  const STEPS_1: seq<PrimeStep> := [
    Step(23, 29), Step(29, 31), Step(31, 37), Step(37, 41),
    Step(41, 43), Step(43, 47), Step(47, 53), Step(53, 59)]

  const STEPS_2: seq<PrimeStep> := [
    Step(59, 61), Step(61, 67), Step(67, 71), Step(71, 73),
    Step(73, 79), Step(79, 83), Step(83, 89), Step(89, 97)]

  const STEPS_3: seq<PrimeStep> := [
    Step(97, 101), Step(101, 103), Step(103, 107), Step(107, 109),
    Step(109, 113), Step(113, 127), Step(127, 131), Step(131, 137)]

  const STEPS_4: seq<PrimeStep> := [
    Step(137, 139), Step(139, 149), Step(149, 151), Step(151, 157),
    Step(157, 163), Step(163, 167), Step(167, 173), Step(173, 179)]

  const STEPS_5: seq<PrimeStep> := [
    Step(179, 181), Step(181, 191), Step(191, 193), Step(193, 197),
    Step(197, 199), Step(199, 211), Step(211, 223), Step(223, 227)]

  const STEPS_6: seq<PrimeStep> := [
    Step(227, 229), Step(229, 233), Step(233, 239), Step(239, 241),
    Step(241, 251), Step(251, 257), Step(257, 263), Step(263, 269)]

  const STEPS_7: seq<PrimeStep> := [
    Step(269, 271), Step(271, 277), Step(277, 281), Step(281, 283),
    Step(283, 293), Step(293, 307), Step(307, 311), Step(311, 313)]

  function StepAt(t: nat): PrimeStep
    requires t < 64
  {
    if t < 8 then STEPS_0[t]
    else if t < 16 then STEPS_1[t - 8]
    else if t < 24 then STEPS_2[t - 16]
    else if t < 32 then STEPS_3[t - 24]
    else if t < 40 then STEPS_4[t - 32]
    else if t < 48 then STEPS_5[t - 40]
    else if t < 56 then STEPS_6[t - 48]
    else STEPS_7[t - 56]
  }

  function PrimeAt(t: nat): int
    requires t < 64
  {
    StepAt(t).p
  }

  // Each step starts where the one before it ends.
  ghost predicate Joined(steps: seq<Step>, next: int) {
    && |steps| == 8 && steps[7].next == next
    && steps[0].next == steps[1].p && steps[1].next == steps[2].p && steps[2].next == steps[3].p
    && steps[3].next == steps[4].p && steps[4].next == steps[5].p && steps[5].next == steps[6].p
    && steps[6].next == steps[7].p
  }

  lemma JoinedAt(steps: seq<Step>, next: int, i: nat)
    requires Joined(steps, next) && i < 8
    ensures steps[i].next == if i == 7 then next else steps[i + 1].p
  {
  }

  lemma StepsJoin(t: nat)
    requires t < 63
    ensures StepAt(t).next == PrimeAt(t + 1)
  {
    if t < 8 { JoinedAt(STEPS_0, STEPS_1[0].p, t); }
    else if t < 16 { JoinedAt(STEPS_1, STEPS_2[0].p, t - 8); }
    else if t < 24 { JoinedAt(STEPS_2, STEPS_3[0].p, t - 16); }
    else if t < 32 { JoinedAt(STEPS_3, STEPS_4[0].p, t - 24); }
    else if t < 40 { JoinedAt(STEPS_4, STEPS_5[0].p, t - 32); }
    else if t < 48 { JoinedAt(STEPS_5, STEPS_6[0].p, t - 40); }
    else if t < 56 { JoinedAt(STEPS_6, STEPS_7[0].p, t - 48); }
    else { JoinedAt(STEPS_7, 313, t - 56); }
  }

  lemma StepsAreAdjacent(t: nat)
    requires t < 63
    ensures Adjacent(PrimeAt(t), PrimeAt(t + 1))
  {
    var step: PrimeStep := StepAt(t);
    StepsJoin(t);
  }

  lemma AdjacentMeans(p: int, next: int, n: int)
    requires Adjacent(p, next) && p < n < next
    ensures !Passes(n)
  {
    assert Skips(p, n - p, next);
  }

  lemma TableBounds(t: nat)
    requires t < 64
    ensures 2 <= PrimeAt(t) <= 311 && (t == 0 ==> PrimeAt(t) == 2)
  {
  }

  lemma TablePasses(t: nat)
    requires t < 64
    ensures Passes(PrimeAt(t))
  {
    if t == 0 { TableBounds(0); } else { StepsAreAdjacent(t - 1); }
  }

  /** The table holds the first 64 primes in order: each is prime, and any smaller prime comes before it. */
  lemma {:induction false} FirstPrimes(t: nat, n: int)
    requires t < 64
    ensures IsPrime(PrimeAt(t))
    ensures IsPrime(n) && n < PrimeAt(t) ==> exists s: nat | s < t :: PrimeAt(s) == n
  {
    TableBounds(t);
    TablePasses(t);
    PassesMeansPrime(PrimeAt(t));
    if t > 0 && IsPrime(n) && n < PrimeAt(t) && n != PrimeAt(t - 1) {
      StepsAreAdjacent(t - 1);
      PrimePasses(n);
      if n > PrimeAt(t - 1) { AdjacentMeans(PrimeAt(t - 1), PrimeAt(t), n); }
      FirstPrimes(t - 1, n);
    }
  }
}
