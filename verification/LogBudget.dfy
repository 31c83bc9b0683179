/** The log channel's token bucket, over the reals. */
module LogBudget {

  datatype Bucket = Bucket(rate: real, capacity: real, tokens: real, updated: real)

  function Max0(n: int): real { if n < 0 then 0.0 else n as real }

  function Min(x: real, y: real): real { if x < y then x else y }

  // TokenBucket::new
  function Fresh(perSecond: int, burst: int, now: real): (b: Bucket)
    ensures Ok(b) && b.tokens == b.capacity
  {
    var capacity := Max0(perSecond) + Max0(burst);
    Bucket(Max0(perSecond), capacity, capacity, now)
  }

  predicate Ok(b: Bucket) { b.rate >= 0.0 && 0.0 <= b.tokens <= b.capacity }

  // A clock that runs backwards adds nothing.
  function Elapsed(b: Bucket, now: real): real { if now < b.updated then 0.0 else now - b.updated }

  // What accrues in a time at a rate.
  function Accrued(time: real, rate: real): real { time * rate }

  // Refill by `gain` up to the capacity, then consume one token if there is one.
  function Spend(tokens: real, capacity: real, gain: real): (real, bool) {
    var held := Min(tokens + gain, capacity);
    if held < 1.0 then (held, false) else (held - 1.0, true)
  }

  function Take(b: Bucket, now: real): (r: (Bucket, bool))
    requires Ok(b)
    ensures Ok(r.0) && r.0.rate == b.rate && r.0.capacity == b.capacity
  {
    if b.rate <= 0.0 then (b, false)
    else
      assert Accrued(Elapsed(b, now), b.rate) >= 0.0;
      var (tokens, allowed) := Spend(b.tokens, b.capacity, Accrued(Elapsed(b, now), b.rate));
      (b.(tokens := tokens, updated := now), allowed)
  }

  class TokenBucket {
    var perSecond: real
    var capacity: real
    var tokens: real
    var updated: real
    ghost var born: real   // when the bucket was made
    ghost var granted: nat // how many tokens it has handed out

    function State(): Bucket
      reads this
    {
      Bucket(perSecond, capacity, tokens, updated)
    }

    // What was handed out and what is left were paid for by the capacity and the time since.
    ghost predicate Within()
      reads this
    {
      born <= updated && granted as real + tokens <= capacity + Accrued(updated - born, perSecond)
    }

    constructor (perSecond: int, burst: int, now: real)
      ensures State() == Fresh(perSecond, burst, now) && Within() && granted == 0 && born == now
    {
      var rate := if perSecond < 0 then 0.0 else perSecond as real;
      var limit := rate + if burst < 0 then 0.0 else burst as real;
      this.perSecond, capacity, tokens, updated := rate, limit, limit, now;
      born, granted := now, 0;
    }

    /** Refill, then consume one token if there is one.  As long as the clock does not run backwards the bucket
        never hands out more than its capacity and the time since it was made pay for. */
    method TakeOne(now: real) returns (allowed: bool)
      requires Ok(State())
      modifies this
      ensures Ok(State()) && (State(), allowed) == Take(old(State()), now)
      ensures born == old(born) && granted == old(granted) + if allowed then 1 else 0
      ensures old(Within()) && old(updated) <= now ==>
                Within() && granted as real <= capacity + Accrued(updated - born, perSecond)
    {
      if perSecond <= 0.0 {
        assert Accrued(updated - born, perSecond) == 0.0;
        return false;
      }
      var elapsed := now - updated;
      if elapsed < 0.0 {
        elapsed := 0.0;
      }
      AccruedAdds(updated - born, now - updated, perSecond);
      updated := now;
      tokens := Min(tokens + Accrued(elapsed, perSecond), capacity);
      if tokens < 1.0 {
        return false;
      }
      tokens := tokens - 1.0;
      granted := granted + 1;
      return true;
    }
  }

  lemma AccruedAdds(x: real, y: real, rate: real)
    ensures Accrued(x, rate) + Accrued(y, rate) == Accrued(x + y, rate)
  {
  }

  // ---------------------------------------------------------------- runs

  // Attempt times, none earlier than the one before.
  ghost predicate Ordered(b: Bucket, times: seq<real>) {
    && (times != [] ==> b.updated <= times[0])
    && forall i, j | 0 <= i < j < |times| :: times[i] <= times[j]
  }

  function Prev(b: Bucket, times: seq<real>, k: nat): real
    requires k <= |times|
  {
    if k == 0 then b.updated else times[k - 1]
  }

  // The bucket after the first k attempts, and whether the next one is admitted.
  function After(b: Bucket, times: seq<real>, k: nat): (r: Bucket)
    requires Ok(b) && k <= |times|
    ensures Ok(r) && r.rate == b.rate && r.capacity == b.capacity
  {
    if k == 0 then b else Take(After(b, times, k - 1), times[k - 1]).0
  }

  function Admits(b: Bucket, times: seq<real>, k: nat): bool
    requires Ok(b) && k < |times|
  {
    Take(After(b, times, k), times[k]).1
  }

  // How many of the attempts i..j are admitted.
  function Admitted(b: Bucket, times: seq<real>, i: nat, j: nat): nat
    requires Ok(b) && i <= j <= |times|
  {
    if i == j then 0 else Admitted(b, times, i, j - 1) + if Admits(b, times, j - 1) then 1 else 0
  }

  // ---------------------------------------------------------------- the same run, in tokens

  // What the bucket gains between attempts.
  function Gain(b: Bucket, times: seq<real>, k: nat): real
    requires k < |times|
  {
    Accrued(times[k] - Prev(b, times, k), b.rate)
  }

  function Gains(b: Bucket, times: seq<real>): (gains: seq<real>)
    ensures |gains| == |times|
  {
    seq(|times|, k requires 0 <= k < |times| => Gain(b, times, k))
  }

  function Level(tokens: real, capacity: real, gains: seq<real>, k: nat): real
    requires k <= |gains|
  {
    if k == 0 then tokens else Spend(Level(tokens, capacity, gains, k - 1), capacity, gains[k - 1]).0
  }

  predicate Wins(tokens: real, capacity: real, gains: seq<real>, k: nat)
    requires k < |gains|
  {
    Spend(Level(tokens, capacity, gains, k), capacity, gains[k]).1
  }

  function Won(tokens: real, capacity: real, gains: seq<real>, i: nat, j: nat): nat
    requires i <= j <= |gains|
  {
    if i == j then 0
    else Won(tokens, capacity, gains, i, j - 1) + if Wins(tokens, capacity, gains, j - 1) then 1 else 0
  }

  lemma {:induction false} UpdatedIsLast(b: Bucket, times: seq<real>, k: nat)
    requires Ok(b) && b.rate > 0.0 && k <= |times|
    ensures After(b, times, k).updated == Prev(b, times, k)
  {
  }

  lemma TakeIsSpend(b: Bucket, times: seq<real>, k: nat)
    requires Ok(b) && b.rate > 0.0 && Ordered(b, times) && k < |times|
    ensures var a := After(b, times, k);
      && Take(a, times[k]).0.tokens == Spend(a.tokens, b.capacity, Gains(b, times)[k]).0
      && Take(a, times[k]).1 == Spend(a.tokens, b.capacity, Gains(b, times)[k]).1
  {
    UpdatedIsLast(b, times, k);
    assert Elapsed(After(b, times, k), times[k]) == times[k] - Prev(b, times, k);
  }

  lemma {:induction false} RunInTokens(b: Bucket, times: seq<real>, k: nat)
    requires Ok(b) && b.rate > 0.0 && Ordered(b, times) && k <= |times|
    ensures After(b, times, k).tokens == Level(b.tokens, b.capacity, Gains(b, times), k)
  {
    if k > 0 {
      RunInTokens(b, times, k - 1);
      TakeIsSpend(b, times, k - 1);
    }
  }

  lemma AdmitsInTokens(b: Bucket, times: seq<real>, k: nat)
    requires Ok(b) && b.rate > 0.0 && Ordered(b, times) && k < |times|
    ensures Admits(b, times, k) == Wins(b.tokens, b.capacity, Gains(b, times), k)
  {
    RunInTokens(b, times, k);
    TakeIsSpend(b, times, k);
  }

  lemma {:induction false} AdmittedInTokens(b: Bucket, times: seq<real>, i: nat, j: nat)
    requires Ok(b) && b.rate > 0.0 && Ordered(b, times) && i <= j <= |times|
    ensures Admitted(b, times, i, j) == Won(b.tokens, b.capacity, Gains(b, times), i, j)
    decreases j
  {
    if i < j {
      AdmittedInTokens(b, times, i, j - 1);
      AdmitsInTokens(b, times, j - 1);
    }
  }

  // ---------------------------------------------------------------- the window bound

  function Sum(gains: seq<real>, i: nat, j: nat): real
    requires i <= j <= |gains|
  {
    if i == j then 0.0 else Sum(gains, i, j - 1) + gains[j - 1]
  }

  // Over consecutive attempts the tokens pay for what was admitted.
  lemma {:induction false} TokensPay(tokens: real, capacity: real, gains: seq<real>, i: nat, j: nat)
    requires i < j <= |gains|
    ensures Won(tokens, capacity, gains, i, j) as real + Level(tokens, capacity, gains, j)
            <= capacity + Sum(gains, i + 1, j)
    decreases j
  {
    if i < j - 1 {
      TokensPay(tokens, capacity, gains, i, j - 1);
    } else {
      assert Won(tokens, capacity, gains, i, i) == 0;
    }
  }

  lemma {:induction false} GainsAdd(b: Bucket, times: seq<real>, i: nat, j: nat)
    requires i < j <= |times|
    ensures Sum(Gains(b, times), i + 1, j) == (times[j - 1] - times[i]) * b.rate
    decreases j
  {
    if i < j - 1 {
      GainsAdd(b, times, i, j - 1);
      assert Gains(b, times)[j - 1] == (times[j - 1] - times[j - 2]) * b.rate;
    }
  }

  lemma {:induction false} LevelIsNotNegative(tokens: real, capacity: real, gains: seq<real>, k: nat)
    requires 0.0 <= tokens <= capacity && k <= |gains| && forall i | 0 <= i < |gains| :: gains[i] >= 0.0
    ensures 0.0 <= Level(tokens, capacity, gains, k) <= capacity
  {
    if k > 0 { LevelIsNotNegative(tokens, capacity, gains, k - 1); }
  }

  lemma GainsAreNotNegative(b: Bucket, times: seq<real>)
    requires b.rate >= 0.0 && Ordered(b, times)
    ensures forall i | 0 <= i < |times| :: Gains(b, times)[i] >= 0.0
  {
    forall i | 0 <= i < |times| ensures Gains(b, times)[i] >= 0.0 {
      assert times[i] - Prev(b, times, i) >= 0.0;
    }
  }

  /** In any window of attempts at most capacity plus rate times the window's length are admitted. */
  lemma WindowBound(b: Bucket, times: seq<real>, i: nat, j: nat)
    requires Ok(b) && Ordered(b, times) && i < j <= |times|
    ensures Admitted(b, times, i, j) as real <= b.capacity + (times[j - 1] - times[i]) * b.rate
  {
    if b.rate > 0.0 {
      AdmittedInTokens(b, times, i, j);
      TokensPay(b.tokens, b.capacity, Gains(b, times), i, j);
      GainsAreNotNegative(b, times);
      LevelIsNotNegative(b.tokens, b.capacity, Gains(b, times), j);
      GainsAdd(b, times, i, j);
    } else {
      NothingAtRateZero(b, times, i, j);
      assert (times[j - 1] - times[i]) * b.rate == 0.0;
    }
  }

  lemma {:induction false} NothingAtRateZero(b: Bucket, times: seq<real>, i: nat, j: nat)
    requires Ok(b) && b.rate <= 0.0 && i <= j <= |times|
    ensures Admitted(b, times, i, j) == 0
    decreases j
  {
    if i < j { NothingAtRateZero(b, times, i, j - 1); }
  }

  // ---------------------------------------------------------------- optimality

  // The token ledger of an arbitrary policy that admits attempt k when decide[k].
  function Ledger(tokens: real, capacity: real, gains: seq<real>, decide: seq<bool>, k: nat): real
    requires |decide| == |gains| && k <= |gains|
    decreases k, 0
  {
    if k == 0 then tokens else Funds(tokens, capacity, gains, decide, k - 1) - if decide[k - 1] then 1.0 else 0.0
  }

  // What it holds when attempt k comes in, after the refill.
  function Funds(tokens: real, capacity: real, gains: seq<real>, decide: seq<bool>, k: nat): real
    requires |decide| == |gains| && k < |gains|
    decreases k, 1
  {
    Min(Ledger(tokens, capacity, gains, decide, k) + gains[k], capacity)
  }

  // It spends only tokens it has.
  ghost predicate Affordable(tokens: real, capacity: real, gains: seq<real>, decide: seq<bool>) {
    && |decide| == |gains|
    && forall k: nat | k < |gains| && decide[k] :: Funds(tokens, capacity, gains, decide, k) >= 1.0
  }

  function Granted(decide: seq<bool>, k: nat): nat
    requires k <= |decide|
  {
    if k == 0 then 0 else Granted(decide, k - 1) + if decide[k - 1] then 1 else 0
  }

  // One attempt: whoever is ahead, counting tokens and admissions, stays ahead.
  lemma PolicyStep(level: real, ledger: real, capacity: real, gain: real, decision: bool, mine: nat, theirs: nat)
    requires mine >= theirs && level + mine as real >= ledger + theirs as real
    requires decision ==> Min(ledger + gain, capacity) >= 1.0
    ensures var (level', wins) := Spend(level, capacity, gain);
      var ledger' := Min(ledger + gain, capacity) - if decision then 1.0 else 0.0;
      var mine', theirs' := mine + (if wins then 1 else 0), theirs + (if decision then 1 else 0);
      mine' >= theirs' && level' + mine' as real >= ledger' + theirs' as real
  {
    var held, funds := Min(level + gain, capacity), Min(ledger + gain, capacity);
    assert held + mine as real >= funds + theirs as real;
    if held < 1.0 && decision {
      assert mine as real > theirs as real;
    }
  }

  lemma {:induction false} AheadOfAnyPolicy(tokens: real, capacity: real, gains: seq<real>, decide: seq<bool>, k: nat)
    requires Affordable(tokens, capacity, gains, decide) && k <= |gains|
    ensures Won(tokens, capacity, gains, 0, k) >= Granted(decide, k)
    ensures Level(tokens, capacity, gains, k) + Won(tokens, capacity, gains, 0, k) as real
            >= Ledger(tokens, capacity, gains, decide, k) + Granted(decide, k) as real
  {
    if k > 0 {
      AheadOfAnyPolicy(tokens, capacity, gains, decide, k - 1);
      PolicyStep(Level(tokens, capacity, gains, k - 1), Ledger(tokens, capacity, gains, decide, k - 1), capacity,
                 gains[k - 1], decide[k - 1], Won(tokens, capacity, gains, 0, k - 1), Granted(decide, k - 1));
    }
  }

  // A policy that spends only what this bucket's ledger holds, refilled at the same times.
  ghost predicate KeepsLedger(b: Bucket, times: seq<real>, decide: seq<bool>) {
    Affordable(b.tokens, b.capacity, Gains(b, times), decide)
  }

  /** On every prefix the bucket admits at least as many as any policy that keeps the same ledger. */
  lemma GreedyIsOptimal(b: Bucket, times: seq<real>, decide: seq<bool>, k: nat)
    requires Ok(b) && Ordered(b, times) && KeepsLedger(b, times, decide) && k <= |times|
    requires b.rate > 0.0 || b.tokens < 1.0
    ensures Admitted(b, times, 0, k) >= Granted(decide, k)
  {
    if b.rate > 0.0 {
      AdmittedInTokens(b, times, 0, k);
      AheadOfAnyPolicy(b.tokens, b.capacity, Gains(b, times), decide, k);
    } else {
      forall i | 0 <= i < |times| ensures Gains(b, times)[i] == 0.0 {
        assert Gain(b, times, i) == (times[i] - Prev(b, times, i)) * 0.0;
      }
      NothingToSpend(b.tokens, b.capacity, Gains(b, times), decide, k);
    }
  }

  lemma {:induction false} NothingToSpend(tokens: real, capacity: real, gains: seq<real>, decide: seq<bool>, k: nat)
    requires tokens < 1.0 && Affordable(tokens, capacity, gains, decide) && k <= |gains|
    requires forall i | 0 <= i < |gains| :: gains[i] == 0.0
    ensures Granted(decide, k) == 0 && Ledger(tokens, capacity, gains, decide, k) < 1.0
  {
    if k > 0 { NothingToSpend(tokens, capacity, gains, decide, k - 1); }
  }

  /** Exactly then: at rate zero the bucket refuses even the burst it holds tokens for. */
  lemma RateZeroWastesBurst(b: Bucket)
    requires Ok(b) && b.rate <= 0.0 && b.tokens >= 1.0
    ensures var times, decide := [b.updated], [true];
      && Ordered(b, times) && KeepsLedger(b, times, decide)
      && Admitted(b, times, 0, 1) < Granted(decide, 1)
  {
    var times, decide := [b.updated], [true];
    var gains := Gains(b, times);
    assert gains[0] == 0.0;
    assert Ledger(b.tokens, b.capacity, gains, decide, 0) == b.tokens;
    assert Funds(b.tokens, b.capacity, gains, decide, 0) >= 1.0;
    assert Granted(decide, 0) == 0;
    NothingAtRateZero(b, times, 0, 1);
  }

  // ---------------------------------------------------------------- a fresh bucket

  // The bucket after n takes at one instant.
  function Drained(b: Bucket, now: real, n: nat): (r: Bucket)
    requires Ok(b)
    ensures Ok(r) && r.rate == b.rate && r.capacity == b.capacity
  {
    if n == 0 then b else Take(Drained(b, now, n - 1), now).0
  }

  function Clipped(n: int): nat { if n < 0 then 0 else n }

  lemma {:induction false} DrainedTokens(perSecond: int, burst: int, now: real, n: nat)
    requires perSecond > 0
    ensures var b, size := Drained(Fresh(perSecond, burst, now), now, n), perSecond + Clipped(burst);
      && b.rate == perSecond as real && b.capacity == size as real && b.updated == now
      && b.tokens == if n <= size then (size - n) as real else 0.0
  {
    if n > 0 {
      DrainedTokens(perSecond, burst, now, n - 1);
      var b := Drained(Fresh(perSecond, burst, now), now, n - 1);
      assert Accrued(Elapsed(b, now), b.rate) == 0.0;
    }
  }

  /** At one instant a fresh bucket admits exactly as many as its rate and burst together, negative ones counting as
      none, and at rate zero nothing at all. */
  lemma FreshBucketAdmits(perSecond: int, burst: int, now: real, n: nat)
    ensures Take(Drained(Fresh(perSecond, burst, now), now, n), now).1
            <==> perSecond > 0 && n < perSecond + Clipped(burst)
  {
    var b := Drained(Fresh(perSecond, burst, now), now, n);
    if perSecond > 0 {
      DrainedTokens(perSecond, burst, now, n);
      assert Accrued(Elapsed(b, now), b.rate) == 0.0;
    }
  }
}
