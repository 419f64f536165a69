// Exponential backoff with jitter, as the worker pool requests it.
// Durations are whole nanoseconds; the float64 products of the source are real numbers here.
module Retry {
  datatype RetryConfig = RetryConfig(maxAttempts: int, baseInterval: int)

  const DEFAULT_ATTEMPTS: nat := 3
  const DEFAULT_BASE: nat := 15_000_000_000

  function MaxRetries(c: RetryConfig): (m: nat)
    ensures m > 0
  {
    if c.maxAttempts <= 0 then DEFAULT_ATTEMPTS else c.maxAttempts
  }

  function Base(c: RetryConfig): (b: nat)
    ensures b > 0
  {
    if c.baseInterval <= 0 then DEFAULT_BASE else c.baseInterval
  }

  function Pow2(n: nat): (p: nat)
    ensures p > 0
  {
    if n == 0 then 1 else 2 * Pow2(n - 1)
  }

  // The random 64-bit draw divided by its maximum.
  type Ratio = r: real | 0.0 <= r <= 1.0 witness 0.0

  function Jitter(maxJitter: real, draw: Ratio): real {
    if maxJitter <= 0.0 then 0.0 else draw * maxJitter
  }

  function JitterBound(maxJitter: real): real {
    if maxJitter <= 0.0 then 0.0 else maxJitter
  }

  lemma JitterWithin(maxJitter: real, draw: Ratio)
    ensures 0.0 <= Jitter(maxJitter, draw) <= JitterBound(maxJitter)
  {
    if maxJitter > 0.0 {
      PositiveJitterWithin(maxJitter, draw);
    }
  }

  lemma PositiveJitterWithin(maxJitter: real, draw: Ratio)
    requires maxJitter > 0.0
    ensures 0.0 <= Jitter(maxJitter, draw) <= maxJitter
  {
    var j := draw * maxJitter;
    assert Jitter(maxJitter, draw) == j;
    assert 0.0 <= j <= maxJitter by {
      ScaledByRatio(maxJitter, draw);
    }
  }

  // The 64-bit draws.
  const LAST_DRAW: nat := 0xFFFF_FFFF_FFFF_FFFF

  function RatioOf(n: nat): Ratio
    requires n <= LAST_DRAW
  {
    n as real / LAST_DRAW as real
  }

  // x lies from one draw's jitter to the next draw's.
  predicate Between(maxJitter: real, n: nat, x: real) {
    n < LAST_DRAW && Jitter(maxJitter, RatioOf(n)) <= x <= Jitter(maxJitter, RatioOf(n + 1))
  }

  lemma StepOfJitter(maxJitter: real, n: nat)
    requires maxJitter > 0.0 && n < LAST_DRAW
    ensures Jitter(maxJitter, RatioOf(n + 1)) == Jitter(maxJitter, RatioOf(n)) + maxJitter / LAST_DRAW as real
  {
    assert (n + 1) as real == n as real + 1.0;
    assert RatioOf(n + 1) == RatioOf(n) + 1.0 / LAST_DRAW as real;
    Distribute(RatioOf(n), 1.0 / LAST_DRAW as real, maxJitter);
  }

  lemma Distribute(a: real, b: real, x: real)
    ensures (a + b) * x == a * x + b * x
  {
  }

  lemma DivideLe(a: real, l: real, r: real)
    requires l > 0.0
    ensures a <= r * l ==> a / l <= r
    ensures r * l <= a ==> r <= a / l
  {
    assert a / l * l == a;
    assert (r - a / l) * l == r * l - a;
  }

  lemma DrawsAround(ratio: real) returns (n: nat)
    requires 0.0 <= ratio <= 1.0
    ensures n < LAST_DRAW && RatioOf(n) <= ratio <= RatioOf(n + 1)
  {
    var l := LAST_DRAW as real;
    var scaled := ratio * l;
    n := if scaled.Floor >= LAST_DRAW then LAST_DRAW - 1 else scaled.Floor;
    DivideLe(n as real, l, ratio);
    DivideLe((n + 1) as real, l, ratio);
  }

  lemma FindBetween(maxJitter: real, x: real) returns (n: nat)
    requires maxJitter > 0.0 && 0.0 <= x <= maxJitter
    ensures Between(maxJitter, n, x)
  {
    var ratio := x / maxJitter;
    DivideLe(x, maxJitter, 1.0);
    n := DrawsAround(ratio);
    BetweenRatios(maxJitter, n, ratio);
    assert ratio * maxJitter == x;
  }

  lemma BetweenRatios(maxJitter: real, n: nat, ratio: real)
    requires maxJitter > 0.0 && n < LAST_DRAW && RatioOf(n) <= ratio <= RatioOf(n + 1)
    ensures Between(maxJitter, n, ratio * maxJitter)
  {
    Ordered(RatioOf(n), ratio, maxJitter);
    Ordered(ratio, RatioOf(n + 1), maxJitter);
  }

  lemma Ordered(a: real, b: real, x: real)
    requires a <= b && x > 0.0
    ensures a * x <= b * x
  {
    assert b * x - a * x == (b - a) * x;
  }

  // Full jitter: the first draw gives 0 and the last the whole bound, and between them the draws
  // leave no value out by more than one step.
  lemma JitterRange(maxJitter: real, x: real)
    requires maxJitter > 0.0
    ensures Jitter(maxJitter, RatioOf(0)) == 0.0 && Jitter(maxJitter, RatioOf(LAST_DRAW)) == maxJitter
    ensures forall n: nat :: n < LAST_DRAW ==>
      Jitter(maxJitter, RatioOf(n + 1)) == Jitter(maxJitter, RatioOf(n)) + maxJitter / LAST_DRAW as real
    ensures 0.0 <= x <= maxJitter <==> exists n: nat :: Between(maxJitter, n, x)
  {
    forall n: nat | n < LAST_DRAW
      ensures Jitter(maxJitter, RatioOf(n + 1)) == Jitter(maxJitter, RatioOf(n)) + maxJitter / LAST_DRAW as real
    {
      StepOfJitter(maxJitter, n);
    }
    if n: nat :| Between(maxJitter, n, x) {
      PositiveJitterWithin(maxJitter, RatioOf(n));
      PositiveJitterWithin(maxJitter, RatioOf(n + 1));
    }
    if 0.0 <= x <= maxJitter {
      var n := FindBetween(maxJitter, x);
    }
  }

  function Delay(c: RetryConfig, retry: nat, draw: Ratio): int {
    var backoff := (Base(c) * Pow2(retry)) as real;
    (backoff + Jitter(backoff * 0.2, draw)).Floor
  }

  // The delay before jitter.
  function Nominal(c: RetryConfig, retry: nat): (d: nat)
    ensures d > 0
  {
    if retry == 0 then Base(c) else 2 * Nominal(c, retry - 1)
  }

  lemma {:induction false} NominalIsDoubledBase(c: RetryConfig, retry: nat)
    ensures Nominal(c, retry) == Base(c) * Pow2(retry)
  {
    if retry > 0 {
      NominalIsDoubledBase(c, retry - 1);
      assert Base(c) * (2 * Pow2(retry - 1)) == 2 * (Base(c) * Pow2(retry - 1));
    }
  }

  // A delay is at least the doubled base and at most a fifth longer.
  predicate InBand(c: RetryConfig, retry: nat, delay: int) {
    Nominal(c, retry) <= delay && 5 * delay <= 6 * Nominal(c, retry)
  }

  lemma DelayInBand(c: RetryConfig, retry: nat, draw: Ratio)
    ensures InBand(c, retry, Delay(c, retry, draw))
  {
    NominalIsDoubledBase(c, retry);
    var n := Nominal(c, retry);
    JitterBand(n as real, draw);
    FloorBand(n, n as real + Jitter(n as real * 0.2, draw));
  }

  // The whole band is used: the first draw gives the doubled base, and the last a fifth more, cut
  // to whole nanoseconds.
  lemma DelayRange(c: RetryConfig, retry: nat)
    ensures Delay(c, retry, RatioOf(0)) == Nominal(c, retry)
    ensures var longest := Delay(c, retry, RatioOf(LAST_DRAW)); 5 * longest <= 6 * Nominal(c, retry) < 5 * longest + 5
  {
    NominalIsDoubledBase(c, retry);
    var n := Nominal(c, retry);
    JitterRange(n as real * 0.2, 0.0);
    FloorOfFifth(n, (n as real + n as real * 0.2).Floor);
  }

  lemma FloorOfFifth(n: nat, f: int)
    requires f == (n as real + n as real * 0.2).Floor
    ensures 5 * f <= 6 * n < 5 * f + 5
  {
    var x := n as real + n as real * 0.2;
    assert f as real <= x < f as real + 1.0;
    assert (5 * f) as real == 5.0 * f as real;
    assert (6 * n) as real == 6.0 * n as real;
    assert 5.0 * x == 6.0 * n as real;
  }

  lemma JitterBand(b: real, draw: Ratio)
    requires b > 0.0
    ensures b <= b + Jitter(b * 0.2, draw) <= b * 1.2
  {
    ScaledByRatio(b * 0.2, draw);
  }

  lemma FloorBand(n: nat, x: real)
    requires n as real <= x <= n as real * 1.2
    ensures n <= x.Floor && 5 * x.Floor <= 6 * n
  {
    var f := x.Floor;
    assert f as real <= x;
    assert (5 * f) as real == 5.0 * f as real;
    assert (6 * n) as real == 6.0 * n as real;
  }

  lemma ScaledByRatio(x: real, r: Ratio)
    requires x >= 0.0
    ensures 0.0 <= r * x <= x
  {
    assert x - r * x == (1.0 - r) * x;
  }

  // The delays one job asks for, first failure first, starting at retry count `from`.
  ghost predicate DelaysInBand(c: RetryConfig, from: nat, ds: seq<int>) {
    forall i :: 0 <= i < |ds| ==> InBand(c, from + i, ds[i])
  }

  function Sum(ds: seq<int>): int {
    if ds == [] then 0 else ds[0] + Sum(ds[1..])
  }

  lemma EachLongerThanTheLast(c: RetryConfig, from: nat, ds: seq<int>, i: nat)
    requires DelaysInBand(c, from, ds) && i + 1 < |ds|
    ensures ds[i] < ds[i + 1]
  {
    assert InBand(c, from + i, ds[i]) && InBand(c, from + i + 1, ds[i + 1]);
    assert Nominal(c, from + i + 1) == 2 * Nominal(c, from + i);
  }

  lemma {:induction false} SumInBand(c: RetryConfig, from: nat, ds: seq<int>)
    requires DelaysInBand(c, from, ds)
    ensures Nominal(c, from + |ds|) - Nominal(c, from) <= Sum(ds)
    ensures 5 * Sum(ds) <= 6 * (Nominal(c, from + |ds|) - Nominal(c, from))
    decreases |ds|
  {
    if ds != [] {
      forall i | 0 <= i < |ds[1..]|
        ensures InBand(c, from + 1 + i, ds[1..][i])
      {
        assert InBand(c, from + (i + 1), ds[i + 1]);
      }
      SumInBand(c, from + 1, ds[1..]);
      assert from + 1 + |ds[1..]| == from + |ds|;
      assert InBand(c, from + 0, ds[0]);
    }
  }

  // M delays from the first failure on total between base * (2^M - 1) and 1.2 times that.
  lemma TotalWait(c: RetryConfig, ds: seq<int>)
    requires DelaysInBand(c, 0, ds)
    ensures Base(c) * (Pow2(|ds|) - 1) <= Sum(ds)
    ensures 5 * Sum(ds) <= 6 * (Base(c) * (Pow2(|ds|) - 1))
  {
    SumInBand(c, 0, ds);
    NominalIsDoubledBase(c, |ds|);
    assert Base(c) * (Pow2(|ds|) - 1) == Nominal(c, |ds|) - Nominal(c, 0);
  }
}
