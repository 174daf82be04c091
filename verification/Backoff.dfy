/** Exponential backoff with a cap and up to ten percent jitter; floats are reals here. */
module Backoff {

  datatype BackoffCalc = BackoffCalc(minMs: int, maxMs: int, factor: real)
  {
    /** What tunnel validation guarantees of the parameters. */
    ghost predicate Valid() {
      0 < minMs <= maxMs && factor >= 1.0
    }

    function Base(attempt: nat): real {
      Smaller(maxMs as real, minMs as real * Pow(factor, attempt))
    }

    /** The delay in whole milliseconds; `jitter` is the random draw from [0, 1). */
    function Delay(attempt: nat, jitter: real): int {
      Jittered(Base(attempt), jitter)
    }
  }

  /** A base delay with its random part, in whole milliseconds. */
  function Jittered(base: real, jitter: real): int {
    Truncate(base + base * 0.1 * jitter)
  }

  function Pow(x: real, n: nat): real {
    if n == 0 then 1.0 else x * Pow(x, n - 1)
  }

  function Smaller(x: real, y: real): real {
    if x <= y then x else y
  }

  /** Conversion of a float to an integer duration drops the fraction. */
  function Truncate(x: real): int {
    if x >= 0.0 then x.Floor else -((-x).Floor)
  }

  lemma ScaleMonotone(a: real, x: real, y: real)
    requires a >= 0.0 && x <= y
    ensures a * x <= a * y
  {
  }

  lemma OneMoreFactor(x: real, d: real, k: real, power: real)
    requires d >= 0.0 && k >= 0.0 && x == 1.0 + d && power >= 1.0 + k * d
    ensures x * power >= 1.0 + (k + 1.0) * d
  {
    var e := k * d;
    ScaleMonotone(d, 0.0, k);
    ScaleMonotone(e, 0.0, d);
    ScaleMonotone(x, 1.0 + e, power);
    assert x * (1.0 + e) == 1.0 + d + e + e * d;
  }

  /** Bernoulli's inequality. */
  lemma {:induction false} PowGrowsAtLeastLinearly(x: real, n: nat)
    requires x >= 1.0
    ensures Pow(x, n) >= 1.0 + n as real * (x - 1.0)
    ensures Pow(x, n) >= 1.0
  {
    var d := x - 1.0;
    if n > 0 {
      PowGrowsAtLeastLinearly(x, n - 1);
      OneMoreFactor(x, d, (n - 1) as real, Pow(x, n - 1));
    }
    ScaleMonotone(d, 0.0, n as real);
  }

  lemma {:induction false} PowMonotone(x: real, n: nat, m: nat)
    requires x >= 1.0 && n <= m
    ensures Pow(x, n) <= Pow(x, m)
    decreases m - n
  {
    if n < m {
      PowMonotone(x, n, m - 1);
      PowGrowsAtLeastLinearly(x, m - 1);
      assert (x - 1.0) * Pow(x, m - 1) >= 0.0;
    }
  }

  /** More consecutive failures never shorten the base delay. */
  lemma BaseIsMonotone(b: BackoffCalc, n: nat, m: nat)
    requires b.Valid() && n <= m
    ensures b.Base(n) <= b.Base(m)
  {
    PowMonotone(b.factor, n, m);
    ScaleMonotone(b.minMs as real, Pow(b.factor, n), Pow(b.factor, m));
  }

  lemma BaseWithinBounds(b: BackoffCalc, n: nat)
    requires b.Valid()
    ensures b.minMs as real <= b.Base(n) <= b.maxMs as real
  {
    PowGrowsAtLeastLinearly(b.factor, n);
    ScaleMonotone(b.minMs as real, 1.0, Pow(b.factor, n));
  }

  /** The first failure is followed by the minimal delay. */
  lemma BaseStartsAtTheMinimum(b: BackoffCalc)
    requires b.Valid()
    ensures b.Base(0) == b.minMs as real
  {
  }

  lemma CappingStep(hi: real, scaled: real, base: real, factor: real, more: real)
    requires scaled >= 0.0 && hi >= 0.0 && factor >= 1.0 && more == scaled * factor && base == Smaller(hi, scaled)
    ensures Smaller(hi, more) == Smaller(hi, base * factor)
  {
    ScaleMonotone(scaled, 1.0, factor);
    ScaleMonotone(hi, 1.0, factor);
  }

  lemma PowerGrows(lo: real, x: real, n: nat)
    ensures lo * Pow(x, n + 1) == lo * Pow(x, n) * x
  {
    Regroup(lo, x, Pow(x, n));
  }

  lemma Regroup(x: real, y: real, z: real)
    ensures x * (y * z) == x * z * y
  {
  }

  lemma Uncapped(b: BackoffCalc, n: nat) returns (scaled: real, more: real)
    requires b.Valid()
    ensures scaled >= 0.0 && more == scaled * b.factor
    ensures b.Base(n) == Smaller(b.maxMs as real, scaled) && b.Base(n + 1) == Smaller(b.maxMs as real, more)
  {
    var lo := b.minMs as real;
    PowGrowsAtLeastLinearly(b.factor, n);
    ScaleMonotone(lo, 0.0, Pow(b.factor, n));
    PowerGrows(lo, b.factor, n);
    scaled, more := lo * Pow(b.factor, n), lo * Pow(b.factor, n + 1);
  }

  /** And each further one by the delay before it times the factor, up to the maximum. */
  lemma BaseMultiplies(b: BackoffCalc, n: nat)
    requires b.Valid()
    ensures var grown, most := b.Base(n) * b.factor, b.maxMs as real;
            b.Base(n + 1) == if grown <= most then grown else most
  {
    var scaled, more := Uncapped(b, n);
    CappingStep(b.maxMs as real, scaled, b.Base(n), b.factor, more);
  }

  /** The delay is the base and up to a tenth of it, in whole milliseconds. */
  lemma DelayIsTheBaseWithJitter(b: BackoffCalc, n: nat, jitter: real)
    requires b.Valid() && 0.0 <= jitter < 1.0
    ensures b.Delay(n, 0.0) == b.Base(n).Floor
    ensures var exact := b.Base(n) + jitter * (b.Base(n) / 10.0);
            b.Delay(n, jitter) as real <= exact < (b.Delay(n, jitter) + 1) as real
  {
    BaseWithinBounds(b, n);
    JitterIsATenthAtMost(b.Base(n), jitter);
    JitterInTenths(b.Base(n), jitter);
  }

  lemma JitterInTenths(base: real, jitter: real)
    ensures base * 0.1 * jitter == jitter * (base / 10.0)
    ensures base * 0.1 * 0.0 == 0.0
  {
    assert base * 0.1 == base / 10.0;
  }

  lemma JitterIsATenthAtMost(base: real, jitter: real)
    requires 0.0 <= base && 0.0 <= jitter < 1.0
    ensures 0.0 <= base * 0.1 * jitter <= base * 0.1
  {
    ScaleMonotone(base * 0.1, 0.0, jitter);
    ScaleMonotone(base * 0.1, jitter, 1.0);
  }

  lemma TruncatedWithinBounds(base: real, part: real, lo: int, hi: int)
    requires 0.0 <= lo as real <= base <= hi as real && 0.0 <= part <= base * 0.1
    ensures lo <= Truncate(base + part)
    ensures Truncate(base + part) as real <= 1.1 * hi as real
  {
  }

  lemma JitteredWithinBounds(base: real, jitter: real, lo: int, hi: int)
    requires 0.0 <= lo as real <= base <= hi as real && 0.0 <= jitter < 1.0
    ensures lo <= Jittered(base, jitter)
    ensures Jittered(base, jitter) as real <= 1.1 * hi as real
  {
    JitterIsATenthAtMost(base, jitter);
    TruncatedWithinBounds(base, base * 0.1 * jitter, lo, hi);
  }

  /** Every delay lies between the minimum and the maximum plus ten percent. */
  lemma DelayWithinBounds(b: BackoffCalc, n: nat, jitter: real)
    requires b.Valid() && 0.0 <= jitter < 1.0
    ensures b.minMs <= b.Delay(n, jitter)
    ensures b.Delay(n, jitter) as real <= 1.1 * b.maxMs as real
  {
    BaseWithinBounds(b, n);
    JitteredWithinBounds(b.Base(n), jitter, b.minMs, b.maxMs);
  }

  /** The least integer not below x. */
  function Ceil(x: real): int {
    -((-x).Floor)
  }

  /**
   With a growing factor the cap is reached after at most
   ceil((max/min - 1) / (factor - 1)) consecutive failures, and kept.
   */
  lemma CapIsReached(b: BackoffCalc, n: nat)
    requires b.Valid() && b.factor > 1.0
    requires n >= Ceil((b.maxMs as real / b.minMs as real - 1.0) / (b.factor - 1.0))
    ensures b.Base(n) == b.maxMs as real
  {
    var lo, hi, d := b.minMs as real, b.maxMs as real, b.factor - 1.0;
    var bound := (hi / lo - 1.0) / d;
    assert n as real >= bound;
    ScaleMonotone(d, bound, n as real);
    assert d * bound == hi / lo - 1.0;
    PowGrowsAtLeastLinearly(b.factor, n);
    ScaleMonotone(lo, hi / lo, Pow(b.factor, n));
    assert lo * (hi / lo) == hi;
  }
}
