/** Exponential backoff with a cap and jitter.

    Integers saturate where the program's do: the power of two at 32 bits, the product
    at 128, the delay in milliseconds at 64. The jitter factor is a real number. */
module BackoffDelay {
  import opened Prelude

  const U32_MAX: nat := 0xFFFF_FFFF
  const U64_MAX: nat := 0xFFFF_FFFF_FFFF_FFFF
  const U128_MAX: nat := 0xFFFF_FFFF_FFFF_FFFF_FFFF_FFFF_FFFF_FFFF

  /** Delays as configured, in whole seconds, and a jitter between 0 and 1. */
  datatype Config = Config(initial: nat, max: nat, jitter: real)

  predicate ValidConfig(cfg: Config) {
    cfg.initial <= U64_MAX && cfg.max <= U64_MAX && 0.0 <= cfg.jitter <= 1.0
  }

  function Pow2(n: nat): (p: nat)
    ensures p >= 1
  {
    if n == 0 then 1 else 2 * Pow2(n - 1)
  }

  function Times(a: nat, b: nat): nat {
    a * b
  }

  /** The delay before jitter, in milliseconds, of attempt number `n`. */
  function BaseDelay(cfg: Config, n: nat): nat {
    Min(Min(Times(cfg.initial * 1000, Min(Pow2(n), U32_MAX)), U128_MAX), cfg.max * 1000)
  }

  /** What the base delay is meant to be: doubled each time, up to the cap. */
  function IdealDelay(cfg: Config, n: nat): nat {
    Min(Times(cfg.initial * 1000, Pow2(n)), cfg.max * 1000)
  }

  /** The share of the base delay that a draw `r` from 0 to the jitter stands for. */
  function Factor(cfg: Config, r: real): real {
    1.0 - cfg.jitter / 2.0 + r
  }

  /** A duration of `x` milliseconds, capped, cut down to a whole 64-bit number. */
  function ToMillis(cfg: Config, x: real): nat
    requires 0.0 <= x
  {
    Min((if x <= (cfg.max * 1000) as real then x else (cfg.max * 1000) as real).Floor, U64_MAX)
  }

  function Share(capped: nat, factor: real): (x: real)
    ensures 0.0 <= factor ==> 0.0 <= x
  {
    ScaledIsNonNegative(capped as real, factor);
    capped as real * factor
  }

  /** The jittered delay in milliseconds. */
  function Jittered(cfg: Config, capped: nat, r: real): nat
    requires ValidConfig(cfg) && 0.0 <= r <= cfg.jitter
  {
    ToMillis(cfg, Share(capped, Factor(cfg, r)))
  }

  lemma ScaledIsNonNegative(x: real, y: real)
    requires 0.0 <= x
    ensures 0.0 <= y ==> 0.0 <= x * y
  {
  }

  class Backoff {
    const cfg: Config
    var attempt: nat

    constructor (cfg: Config)
      ensures this.cfg == cfg && attempt == 0
    {
      this.cfg := cfg;
      this.attempt := 0;
    }

    method Reset()
      modifies this
      ensures attempt == 0
    {
      attempt := 0;
    }

    method NextDelay(r: real) returns (millis: nat)
      requires ValidConfig(cfg) && 0.0 <= r <= cfg.jitter
      modifies this
      ensures millis == Jittered(cfg, BaseDelay(cfg, old(attempt)), r)
      ensures attempt == Min(old(attempt) + 1, U32_MAX)
    {
      var exp := Min(Pow2(attempt), U32_MAX);
      var base := Min(cfg.initial * 1000 * exp, U128_MAX);
      var capped := Min(base, cfg.max * 1000);
      attempt := Min(attempt + 1, U32_MAX);
      millis := Jittered(cfg, capped, r);
    }
  }

  // ---------- laws ----------

  lemma TimesMonotone(a: nat, b: nat, c: nat)
    requires b <= c
    ensures Times(a, b) <= Times(a, c)
  {
  }

  lemma {:induction false} Pow2Monotone(n: nat, m: nat)
    requires n <= m
    ensures Pow2(n) <= Pow2(m)
    decreases m
  {
    if n < m { Pow2Monotone(n, m - 1); }
  }

  lemma Pow2Of32()
    ensures Pow2(32) == U32_MAX + 1
  {
    assert Pow2(8) == 256;
    assert Pow2(16) == 0x1_0000;
    assert Pow2(24) == 0x100_0000;
  }

  /** The 128-bit product never saturates for delays given in 64-bit seconds. */
  lemma ProductNeverSaturates(cfg: Config, n: nat)
    requires ValidConfig(cfg)
    ensures Times(cfg.initial * 1000, Min(Pow2(n), U32_MAX)) < U128_MAX
  {
    TimesMonotone(cfg.initial * 1000, Min(Pow2(n), U32_MAX), U32_MAX);
    assert Times(cfg.initial * 1000, U32_MAX) == cfg.initial * (1000 * U32_MAX);
  }

  /** The base delay is the ideal one for every attempt exactly when the cap is within
      reach of the 32-bit power of two. */
  lemma BaseIsIdealIff(cfg: Config)
    requires ValidConfig(cfg)
    ensures (forall n: nat :: BaseDelay(cfg, n) == IdealDelay(cfg, n))
            <==> cfg.initial == 0 || cfg.max <= cfg.initial * U32_MAX
  {
    var i := cfg.initial * 1000;
    Pow2Of32();
    if cfg.initial == 0 || cfg.max <= cfg.initial * U32_MAX {
      forall n: nat ensures BaseDelay(cfg, n) == IdealDelay(cfg, n) {
        ProductNeverSaturates(cfg, n);
        if Pow2(n) > U32_MAX {
          TimesMonotone(i, U32_MAX, Pow2(n));
          assert Times(i, U32_MAX) == 1000 * (cfg.initial * U32_MAX);
        }
      }
    } else {
      ProductNeverSaturates(cfg, 32);
      assert Times(i, U32_MAX + 1) == Times(i, U32_MAX) + i;
      assert Times(i, U32_MAX) == 1000 * (cfg.initial * U32_MAX);
      assert BaseDelay(cfg, 32) != IdealDelay(cfg, 32);
    }
  }

  /** Base delays never shrink as attempts go on. */
  lemma BaseIsMonotone(cfg: Config, n: nat, m: nat)
    requires n <= m
    ensures BaseDelay(cfg, n) <= BaseDelay(cfg, m) <= cfg.max * 1000
  {
    Pow2Monotone(n, m);
    TimesMonotone(cfg.initial * 1000, Min(Pow2(n), U32_MAX), Min(Pow2(m), U32_MAX));
  }

  lemma ShareMonotone(capped: nat, low: real, high: real)
    requires low <= high
    ensures Share(capped, low) <= Share(capped, high)
  {
    ScaledIsNonNegative(capped as real, high - low);
    assert capped as real * high == capped as real * low + capped as real * (high - low);
  }

  lemma FloorMonotone(x: real, y: real)
    requires x <= y
    ensures x.Floor <= y.Floor
  {
  }

  lemma MillisMonotone(cfg: Config, x: real, y: real)
    requires 0.0 <= x <= y
    ensures ToMillis(cfg, x) <= ToMillis(cfg, y) <= cfg.max * 1000
    ensures ToMillis(cfg, x) <= x.Floor
    ensures x <= (cfg.max * 1000) as real ==> ToMillis(cfg, x) == Min(x.Floor, U64_MAX)
  {
    var cap := (cfg.max * 1000) as real;
    var x', y' := if x <= cap then x else cap, if y <= cap then y else cap;
    FloorMonotone(x', y');
    FloorMonotone(y', cap);
    FloorMonotone(x', x);
  }

  /** Every delay is at most the cap, and within half the jitter of its base delay: at
      least the floor of the lower end (or the 64-bit limit, when that is beyond it). */
  lemma DelayBounds(cfg: Config, capped: nat, r: real)
    requires ValidConfig(cfg) && 0.0 <= r <= cfg.jitter && capped <= cfg.max * 1000
    ensures var low := Share(capped, 1.0 - cfg.jitter / 2.0);
            var high := Share(capped, 1.0 + cfg.jitter / 2.0);
            var delay := Jittered(cfg, capped, r);
            && delay <= cfg.max * 1000
            && delay <= high.Floor
            && 0 <= low.Floor && Min(low.Floor, U64_MAX) <= delay
  {
    var low, factor, high := 1.0 - cfg.jitter / 2.0, Factor(cfg, r), 1.0 + cfg.jitter / 2.0;
    ShareMonotone(capped, low, factor);
    ShareMonotone(capped, factor, high);
    ShareMonotone(capped, low, 1.0);
    assert Share(capped, 1.0) == capped as real;
    MillisMonotone(cfg, Share(capped, low), Share(capped, factor));
    MillisMonotone(cfg, Share(capped, factor), Share(capped, high));
    FloorMonotone(Share(capped, factor), Share(capped, high));
  }

  /** The whole chain, for a cap within reach: each delay against the ideal delay. */
  lemma DelayTracksIdeal(cfg: Config, n: nat, r: real)
    requires ValidConfig(cfg) && 0.0 <= r <= cfg.jitter
    requires cfg.max <= cfg.initial * U32_MAX
    ensures var low := Share(IdealDelay(cfg, n), 1.0 - cfg.jitter / 2.0);
            var delay := Jittered(cfg, BaseDelay(cfg, n), r);
            delay <= cfg.max * 1000 && 0 <= low.Floor && Min(low.Floor, U64_MAX) <= delay
  {
    BaseIsIdealIff(cfg);
    BaseIsMonotone(cfg, n, n);
    DelayBounds(cfg, BaseDelay(cfg, n), r);
  }

  // ---------- the delay as a function of the draw ----------

  /** The smallest draw gives the base delay less half the jitter, rounded down. */
  lemma DelayAtNoDraw(cfg: Config, base: nat)
    requires ValidConfig(cfg) && base <= cfg.max * 1000
    ensures Jittered(cfg, base, 0.0) == Min((base as real * (1.0 - cfg.jitter / 2.0)).Floor, U64_MAX)
  {
    var low := 1.0 - cfg.jitter / 2.0;
    ShareMonotone(base, low, 1.0);
    MillisMonotone(cfg, Share(base, low), Share(base, low));
  }

  /** The largest draw gives the base delay plus half the jitter, capped, rounded down. */
  lemma DelayAtFullDraw(cfg: Config, base: nat)
    requires ValidConfig(cfg) && base <= cfg.max * 1000
    ensures var high, cap := base as real * (1.0 + cfg.jitter / 2.0), (cfg.max * 1000) as real;
            0.0 <= high && Jittered(cfg, base, cfg.jitter) == Min((if high <= cap then high else cap).Floor, U64_MAX)
  {
    var factor := Factor(cfg, cfg.jitter);
    assert factor == 1.0 + cfg.jitter / 2.0;
    ScaledIsNonNegative(base as real, factor);
    assert Share(base, factor) == base as real * factor;
  }

  lemma BelowCap(cfg: Config, x: real)
    requires 0.0 <= x
    ensures ToMillis(cfg, x) < cfg.max * 1000 && ToMillis(cfg, x) < U64_MAX ==> x <= (cfg.max * 1000) as real
  {
  }

  /** Below the cap, two draws give delays that differ by the same share of the base as
      the draws do, to within a millisecond. */
  lemma DelayFollowsDraw(cfg: Config, base: nat, r1: real, r2: real)
    requires ValidConfig(cfg) && 0.0 <= r1 <= r2 <= cfg.jitter && base <= cfg.max * 1000
    requires Jittered(cfg, base, r2) < cfg.max * 1000 && Jittered(cfg, base, r2) < U64_MAX
    ensures var gap := base as real * (r2 - r1);
            var d := (Jittered(cfg, base, r2) - Jittered(cfg, base, r1)) as real;
            gap - 1.0 < d < gap + 1.0
  {
    var x1, x2 := Share(base, Factor(cfg, r1)), Share(base, Factor(cfg, r2));
    var cap := (cfg.max * 1000) as real;
    ShareMonotone(base, Factor(cfg, r1), Factor(cfg, r2));
    assert x2 - x1 == base as real * (r2 - r1);
    BelowCap(cfg, x2);
    assert x2 <= cap;
    FloorMonotone(x1, x2);
  }
}
